/** The settings-page event handlers (`src/pages/settings/handler_factories.py`):
    a per-joint setting edit, a gear-ratio edit that also re-signs the
    controller's ratios, and the calibration wizard's home / jog / save
    buttons. Widget values arrive as dynamically typed `Value`s; the robot's
    servo list is represented by its length, and what the encoder reads is a
    parameter. */
module HandlerFactories {
  import opened Wrappers
  import opened PyOps
  import opened Values
  import opened Text
  import opened Servo
  import SM = SettingsManager
  import C = ArctosController
  import H = Homing

  const DirectionsKey: string := "joint_directions"
  const GearRatiosKey: string := "gear_ratios"
  const JogSpeedsKey: string := "joint_speeds"
  /** The wizard reads the plural key; the homing routine reads `joint_acceleration`. */
  const JogAccelerationsKey: string := "joint_accelerations"

  // ---------------------------------------------------------------------------
  // make_joint_handler

  /** The value a direction selector stores: "Inverted" is -1, "Normal" is 1,
      anything `int()` accepts is that integer, and everything else is 1. */
  function DirectionValue(v: Value): (d: int)
    ensures v == Str("Inverted") ==> d == -1
    ensures v == Str("Normal") ==> d == 1
    ensures v.Int? ==> d == v.i
    ensures v.Real? ==> d == Trunc(v.r)
    ensures v.Bool? ==> d == (if v.b then 1 else 0)
    ensures v.Str? && v.s != "Inverted" && v.s != "Normal" ==> d == ParseInt(v.s).GetOr(1)
    ensures (v.Null? || v.List? || v.Dict?) ==> d == 1
  {
    if v == Str("Inverted") then -1
    else if v == Str("Normal") then 1
    else match IntOf(v)
      case Success(n) => n
      case Failure(_) => 1
  }

  /** The value a numeric joint field stores: `None` and anything `int()`
      rejects become 0. */
  function NumberValue(v: Value): (n: int)
    ensures v.Int? ==> n == v.i
    ensures v.Real? ==> n == Trunc(v.r)
    ensures v.Bool? ==> n == (if v.b then 1 else 0)
    ensures v.Str? ==> n == ParseInt(v.s).GetOr(0)
    ensures (v.Null? || v.List? || v.Dict?) ==> n == 0
  {
    if v.Null? then 0
    else match IntOf(v)
      case Success(n) => n
      case Failure(_) => 0
  }

  /** The value the handler for setting `k` stores for input `v`. */
  function JointValue(k: string, v: Value): int {
    if k == DirectionsKey then DirectionValue(v) else NumberValue(v)
  }

  /** The handler built by `make_joint_handler(sm, k, idx, default, title)`,
      applied to the input `v`: the stored map for `k` (or `default`) with
      entry `idx` replaced. A stored value that is not a mapping cannot be
      unpacked and raises `TypeError`. */
  function JointHandler(s: SM.Settings, k: string, idx: int, default: Value, v: Value): (r: Result<SM.Settings, PyError>)
    ensures r.Success? <==> SM.Get(s, k, default).Dict?
    ensures r.Failure? ==> r.error == TypeError
    ensures r.Success? ==>
              var before := SM.Get(s, k, default).entries;
              var after := SM.Get(r.value, k, Null);
              && after.Dict?
              && after.entries.Keys == before.Keys + {idx}
              && after.entries[idx] == Int(JointValue(k, v))
              && (forall j :: j in before && j != idx ==> after.entries[j] == before[j])
    ensures r.Success? ==> forall key, d :: key != k ==> SM.Get(r.value, key, d) == SM.Get(s, key, d)
  {
    var current := SM.Get(s, k, default);
    if !current.Dict? then Failure(TypeError)
    else Success(SM.Set(s, k, Dict(current.entries[idx := Int(JointValue(k, v))])))
  }

  /** With nothing stored under `k`, an edit starts from the default map. */
  lemma FirstEditStartsFromDefault(s: SM.Settings, k: string, idx: int, entries: map<int, Value>, v: Value)
    requires k !in s
    ensures JointHandler(s, k, idx, Dict(entries), v) == Success(SM.Set(s, k, Dict(entries[idx := Int(JointValue(k, v))])))
  {
  }

  /** Choosing "Inverted" or "Normal" for joint `idx` flips only that
      joint's sign in the direction table the controller builds from the
      settings, provided the table was usable before. */
  lemma DirectionChoiceReachesController(s: SM.Settings, idx: nat, choice: string, t: map<int, real>)
    requires idx < C.JointCount
    requires choice == "Inverted" || choice == "Normal"
    requires C.DirectionTable(SM.Get(s, DirectionsKey, JointDict(Int(1))), C.JointCount) == Success(t)
    ensures JointHandler(s, DirectionsKey, idx, JointDict(Int(1)), Str(choice)).Success?
    ensures var s' := JointHandler(s, DirectionsKey, idx, JointDict(Int(1)), Str(choice)).value;
            var t' := C.DirectionTable(SM.Get(s', DirectionsKey, JointDict(Int(1))), C.JointCount);
            && t'.Success?
            && C.DirectionOf(t'.value, idx) == (if choice == "Inverted" then -1.0 else 1.0)
            && forall j :: 0 <= j < C.JointCount && j != idx ==> C.DirectionOf(t'.value, j) == C.DirectionOf(t, j)
  {
    var before := SM.Get(s, DirectionsKey, JointDict(Int(1)));
    var s' := JointHandler(s, DirectionsKey, idx, JointDict(Int(1)), Str(choice)).value;
    var after := SM.Get(s', DirectionsKey, JointDict(Int(1)));
    var raw := if choice == "Inverted" then -1 else 1;
    assert after == Dict(before.entries[idx := Int(raw)]);
    forall j | 0 <= j < C.JointCount
      ensures AsReal(DictGet(after, j, Int(1)).value).Some?
      ensures j == idx ==> AsReal(DictGet(after, j, Int(1)).value) == Some(raw as real)
      ensures j != idx ==> DictGet(after, j, Int(1)) == DictGet(before, j, Int(1))
    {
      assert DictGet(before, j, Int(1)).Success?;
    }
  }

  // ---------------------------------------------------------------------------
  // make_ratio_handler (and the wizard's save, which ends the same way)

  /** What a ratio edit leaves behind: the settings afterwards, and the
      controller's new signed ratios or the exception that stopped the
      handler. */
  datatype Applied = Applied(settings: SM.Settings, outcome: Result<seq<real>, PyError>)

  /** `arctos.set_gear_ratios(ratios, directions)` on settings values: a
      missing table (`None`) means all-positive directions, otherwise each
      ratio is multiplied by `directions.get(i, 1)`. */
  function ControllerRatios(items: seq<Value>, dirs: Value): (r: Result<seq<real>, PyError>)
    ensures r.Success? <==> AsRealList(List(items)).Some? && (dirs.Null? || C.Signable(List(items), dirs))
    ensures r.Success? ==> |r.value| == |items|
    ensures r.Success? && dirs.Null? ==> r.value == AsRealList(List(items)).value
    ensures r.Success? && !dirs.Null? ==> C.SignedBy(List(items), dirs, r.value)
    ensures r.Failure? ==> r.error == (if !dirs.Null? && |items| > 0 && !dirs.Dict? then AttributeError else TypeError)
    ensures dirs == JointDict(Int(1)) && AsRealList(List(items)).Some? ==> r == Success(AsRealList(List(items)).value)
  {
    if dirs.Null? then
      match AsRealList(List(items))
      case None => Failure(TypeError)
      case Some(ratios) => Success(C.SetGearRatios(ratios, None))
    else
      assert dirs == JointDict(Int(1)) && AsRealList(List(items)).Some? ==>
               C.SignValues(List(items), dirs) == Success(AsRealList(List(items)).value) by {
        if dirs == JointDict(Int(1)) && AsRealList(List(items)).Some? {
          C.UnitSignValues(List(items));
        }
      }
      C.SignValues(List(items), dirs)
  }

  /** `ratios = list(get("gear_ratios", [])); ratios[idx] = x; set(...)`
      followed by `set_gear_ratios(ratios, get("joint_directions", {i: 1}))`.
      An index outside the stored list raises before anything is stored; a
      failure in the controller call comes after the store. */
  function StoreRatio(s: SM.Settings, idx: int, x: real): (r: Applied)
    ensures var stored := SM.Get(s, GearRatiosKey, List([]));
            !(stored.List? && Index(stored.items, idx).Some?) ==> r.settings == s && r.outcome.Failure?
    ensures var stored := SM.Get(s, GearRatiosKey, List([]));
            stored.List? && Index(stored.items, idx).Some? ==> RatioStored(s, r.settings, idx, x)
  {
    var stored := SM.Get(s, GearRatiosKey, List([]));
    if !stored.List? then Applied(s, Failure(TypeError))
    else match Assign(stored.items, idx, Real(x))
      case None => Applied(s, Failure(IndexError))
      case Some(items) =>
        var s' := SM.Set(s, GearRatiosKey, List(items));
        Applied(s', ControllerRatios(items, SM.Get(s', DirectionsKey, JointDict(Int(1)))))
  }

  /** `after` is `before` with entry `idx` of the stored ratio list set to
      `x`, the rest of the list and every other setting as they were. */
  ghost predicate RatioStored(before: SM.Settings, after: SM.Settings, idx: int, x: real) {
    var was := SM.Get(before, GearRatiosKey, List([]));
    var now := SM.Get(after, GearRatiosKey, List([]));
    && was.List? && now.List?
    && |now.items| == |was.items|
    && Index(now.items, idx) == Some(Real(x))
    && (forall j :: 0 <= j < |was.items| && Some(j) != Slot(|was.items|, idx) ==> now.items[j] == was.items[j])
    && (forall key, d :: key != GearRatiosKey ==> SM.Get(after, key, d) == SM.Get(before, key, d))
  }

  /** The handler built by `make_ratio_handler(sm, arctos, idx)`: the stored
      list is copied first (a stored value that is not a list raises
      `TypeError` before the input is looked at), then the input, or 0 when
      it is empty or zero, is converted to a float and stored at `idx`. */
  function RatioHandler(s: SM.Settings, idx: int, v: Value): (r: Applied)
    ensures !SM.Get(s, GearRatiosKey, List([])).List? ==> r == Applied(s, Failure(TypeError))
    ensures !Truthy(v) ==> r == StoreRatio(s, idx, 0.0)
    ensures SM.Get(s, GearRatiosKey, List([])).List? && Truthy(v) && FloatOf(v).Failure? ==>
              r == Applied(s, Failure(FloatOf(v).error))
    ensures Truthy(v) && AsReal(v).Some? ==> r == StoreRatio(s, idx, AsReal(v).value)
  {
    if !SM.Get(s, GearRatiosKey, List([])).List? then Applied(s, Failure(TypeError))
    else if !Truthy(v) then StoreRatio(s, idx, 0.0)
    else match FloatOf(v)
      case Failure(e) => Applied(s, Failure(e))
      case Success(x) => StoreRatio(s, idx, x)
  }

  /** With all directions positive, the controller takes the new ratio
      exactly as typed. */
  lemma UnitDirectionsKeepTypedRatio(s: SM.Settings, idx: int, x: real)
    requires DirectionsKey !in s
    requires var stored := SM.Get(s, GearRatiosKey, List([]));
             stored.List? && |stored.items| <= C.JointCount && AsRealList(stored).Some? && 0 <= idx < |stored.items|
    ensures StoreRatio(s, idx, x).outcome.Success?
    ensures StoreRatio(s, idx, x).outcome.value[idx] == x
  {
    var stored := SM.Get(s, GearRatiosKey, List([]));
    var items := stored.items[idx := Real(x)];
    assert Assign(stored.items, idx, Real(x)) == Some(items);
    var s' := SM.Set(s, GearRatiosKey, List(items));
    assert SM.Get(s', DirectionsKey, JointDict(Int(1))) == JointDict(Int(1));
    forall i | 0 <= i < |items| ensures AsReal(items[i]).Some? {
      if i != idx {
        assert AsReal(stored.items[i]).Some?;
      }
    }
    assert AsRealList(List(items)).Some?;
  }

  // ---------------------------------------------------------------------------
  // make_homing_handlers

  /** `int(selection.split()[-1]) - 1`: a blank selection has no last word
      (`IndexError`), a last word that is not an integer is a `ValueError`. */
  function AxisIndex(selection: string): (r: Result<int, PyError>)
    ensures r.Success? <==> LastWord(selection).Some? && ParseInt(LastWord(selection).value).Some?
    ensures r.Success? ==> r.value + 1 == ParseInt(LastWord(selection).value).value
    ensures r.Failure? ==> r.error == (if LastWord(selection).None? then IndexError else ValueError)
  {
    match LastWord(selection)
    case None => Failure(IndexError)
    case Some(w) =>
      match ParseInt(w)
      case None => Failure(ValueError)
      case Some(n) => Success(n - 1)
  }

  /** The selection the axis selectors show for axis `n`. */
  function AxisLabel(n: nat): string {
    "Axis " + NatToString(n)
  }

  /** The last word after a space is the word itself. */
  lemma LastWordAfterSpace(prefix: string, w: string)
    requires |prefix| > 0 && IsSpace(prefix[|prefix| - 1])
    requires |w| > 0 && NoSpace(w)
    ensures LastWord(prefix + w) == Some(w)
  {
    var s := prefix + w;
    assert !IsSpace(s[|s| - 1]);
    assert StripRight(s) == s;
    var u := TrailingWord(s);
    assert forall k :: |prefix| <= k < |s| ==> !IsSpace(s[k]);
    assert IsSpace(s[|prefix| - 1]);
    assert |u| == |w|;
    assert u == s[|prefix|..] == w;
  }

  /** Parsing the selection of axis `n` gives the 0-based index `n - 1`. */
  lemma AxisLabelRoundTrip(n: nat)
    ensures AxisIndex(AxisLabel(n)) == Success(n as int - 1)
  {
    AxisLabelLastWord(n);
    ParseIntOfString(n);
    var r := AxisIndex(AxisLabel(n));
    assert r.Success?;
    assert r.value + 1 == n;
  }

  /** The last word of axis `n`'s selection is the number itself. */
  lemma AxisLabelLastWord(n: nat)
    ensures LastWord(AxisLabel(n)) == Some(IntToString(n))
  {
    var w := NatToString(n);
    DigitsHaveNoSpace(w);
    LastWordAfterSpace("Axis ", w);
  }

  lemma DigitsHaveNoSpace(w: string)
    requires AllDigits(w)
    ensures NoSpace(w)
  {
    forall i | 0 <= i < |w| ensures !IsSpace(w[i]) {
      assert IsDigit(w[i]);
    }
  }

  /** The servo `arctos.servos[idx]` names, or `IndexError`. */
  function ServoAt(servos: nat, idx: int): (r: Result<int, PyError>)
    ensures r.Success? <==> Slot(servos, idx).Some?
    ensures r.Success? ==> r.value == Slot(servos, idx).value
    ensures r.Failure? ==> r.error == IndexError
  {
    match Slot(servos, idx)
    case None => Failure(IndexError)
    case Some(j) => Success(j)
  }

  /** `on_home`: the selected axis's servo runs its homing routine. */
  function OnHome(selection: string, servos: nat): (r: Result<Call, PyError>)
    ensures r.Success? ==> r.value.GoHome? && r.value.axis < servos
    ensures forall n :: 1 <= n <= servos && selection == AxisLabel(n) ==> r == Success(GoHome(n - 1))
  {
    AxisIndexFacts(selection);
    match AxisIndex(selection)
    case Failure(e) => Failure(e)
    case Success(idx) =>
      match ServoAt(servos, idx)
      case Failure(e) => Failure(e)
      case Success(j) => Success(GoHome(j))
  }

  /** Every axis selection parses to the index of that axis. */
  lemma AxisIndexFacts(selection: string)
    ensures forall n: nat :: selection == AxisLabel(n) ==> AxisIndex(selection) == Success(n as int - 1)
  {
    forall n: nat | selection == AxisLabel(n) ensures AxisIndex(selection) == Success(n as int - 1) {
      AxisLabelRoundTrip(n);
    }
  }

  /** `int(step or 0) * dir`: an empty or zero step jogs by nothing. */
  function JogAmount(step: Value, dir: int): (r: Result<int, PyError>)
    ensures !Truthy(step) ==> r == Success(0)
    ensures Truthy(step) && step.Int? ==> r == Success(step.i * dir)
    ensures Truthy(step) && step.Real? ==> r == Success(Trunc(step.r) * dir)
    ensures Truthy(step) && step.Bool? ==> r == Success(dir)
    ensures Truthy(step) && step.Str? && ParseInt(step.s).Some? ==> r == Success(ParseInt(step.s).value * dir)
    ensures Truthy(step) && step.Str? && ParseInt(step.s).None? ==> r == Failure(ValueError)
    ensures Truthy(step) && (step.List? || step.Dict?) ==> r == Failure(TypeError)
    ensures r.Success? && dir == 0 ==> r.value == 0
  {
    if !Truthy(step) then Success(0)
    else match IntOf(step)
      case Failure(e) => Failure(e)
      case Success(n) => Success(n * dir)
  }

  /** `on_move(dir)`: a relative move of the selected axis by the jog
      amount, at the axis's saved speed (default 500) and acceleration
      (default 150). */
  function OnMove(s: SM.Settings, selection: string, step: Value, dir: int, servos: nat): (r: Result<Call, PyError>)
    ensures r.Success? ==> r.value.RunRelative? && r.value.axis < servos
    ensures r.Success? ==> JogAmount(step, dir) == Success(Trunc(r.value.offset))
    ensures r.Success? ==> AxisIndex(selection).Success? && ServoAt(servos, AxisIndex(selection).value) == Success(r.value.axis)
  {
    match AxisIndex(selection)
    case Failure(e) => Failure(e)
    case Success(idx) =>
      match JogAmount(step, dir)
      case Failure(e) => Failure(e)
      case Success(raw) =>
        TruncOfInt(raw);
        JogMove(s, idx, raw, servos)
  }

  /** The move `on_move` sends once the axis index and the jog amount are
      known: the speed and acceleration lookups raise first, then the servo
      lookup. */
  function JogMove(s: SM.Settings, idx: int, raw: int, servos: nat): (r: Result<Call, PyError>)
    ensures r.Success? ==> r.value.RunRelative? && r.value.offset == raw as real
    ensures r.Success? ==> ServoAt(servos, idx) == Success(r.value.axis) && r.value.axis < servos
  {
    var sp := DictGet(SM.Get(s, JogSpeedsKey, Dict(map[])), idx, Int(500));
    var ac := DictGet(SM.Get(s, JogAccelerationsKey, Dict(map[])), idx, Int(150));
    if sp.Failure? then Failure(sp.error)
    else if ac.Failure? then Failure(ac.error)
    else
      match ServoAt(servos, idx)
      case Failure(e) => Failure(e)
      case Success(j) =>
        if AsReal(sp.value).Some? && AsReal(ac.value).Some? then
          Success(RunRelative(j, AsReal(sp.value).value, AsReal(ac.value).value, raw as real))
        else Failure(TypeError)
  }

  /** With no saved jog speeds or accelerations, jogging the axis a
      selection names moves that axis's servo at speed 500 and
      acceleration 150. */
  lemma JogWithoutSavedSettings(s: SM.Settings, selection: string, idx: nat, step: Value, dir: int, servos: nat)
    requires idx < servos && AxisIndex(selection) == Success(idx) && JogAmount(step, dir).Success?
    requires JogSpeedsKey !in s && JogAccelerationsKey !in s
    ensures OnMove(s, selection, step, dir, servos) == Success(RunRelative(idx, 500.0, 150.0, JogAmount(step, dir).value as real))
  {
    var raw := JogAmount(step, dir).value;
    assert OnMove(s, selection, step, dir, servos) == JogMove(s, idx, raw, servos);
    DefaultJogMove(s, idx, raw, servos);
  }

  lemma DefaultJogMove(s: SM.Settings, idx: nat, raw: int, servos: nat)
    requires idx < servos && JogSpeedsKey !in s && JogAccelerationsKey !in s
    ensures JogMove(s, idx, raw, servos) == Success(RunRelative(idx, 500.0, 150.0, raw as real))
  {
    assert DictGet(SM.Get(s, JogSpeedsKey, Dict(map[])), idx, Int(500)) == Success(Int(500));
    assert DictGet(SM.Get(s, JogAccelerationsKey, Dict(map[])), idx, Int(150)) == Success(Int(150));
    assert ServoAt(servos, idx) == Success(idx);
    assert AsReal(Int(500)) == Some(500.0) && AsReal(Int(150)) == Some(150.0);
  }

  /** `on_save`: the encoder reading (0 when the driver returns nothing or
      zero) is stored as the selected joint's homing offset. The offset map
      is keyed by the parsed index itself, before any negative-index
      wrapping. */
  function OnSave(s: SM.Settings, selection: string, servos: nat, reading: Option<int>): (r: Result<SM.Settings, PyError>)
    ensures r.Success? ==> AxisIndex(selection).Success? && ServoAt(servos, AxisIndex(selection).value).Success?
    ensures r.Success? ==> forall key, d :: key != H.OffsetsKey ==> SM.Get(r.value, key, d) == SM.Get(s, key, d)
    ensures r.Success? && SM.Get(s, H.OffsetsKey, Dict(map[])).Dict? ==>
              var idx := AxisIndex(selection).value;
              var before := SM.Get(s, H.OffsetsKey, Dict(map[])).entries;
              var after := SM.Get(r.value, H.OffsetsKey, Null);
              && after.Dict? && idx in after.entries
              && after.entries[idx] == Int(reading.GetOr(0))
              && forall j :: j in before && j != idx ==> j in after.entries && after.entries[j] == before[j]
    ensures var d := SM.Get(s, H.OffsetsKey, Dict(map[]));
            AxisIndex(selection).Success? && ServoAt(servos, AxisIndex(selection).value).Success? && d.Dict? ==> r.Success?
  {
    match AxisIndex(selection)
    case Failure(e) => Failure(e)
    case Success(idx) =>
      match ServoAt(servos, idx)
      case Failure(e) => Failure(e)
      case Success(_) =>
        var val := Int(reading.GetOr(0));
        var d := SM.Get(s, H.OffsetsKey, Dict(map[]));
        if d.Dict? then Success(SM.Set(s, H.OffsetsKey, Dict(d.entries[idx := val])))
        else if d.List? then
          match Assign(d.items, idx, val)
          case None => Failure(IndexError)
          case Some(items) => Success(SM.Set(s, H.OffsetsKey, List(items)))
        else Failure(TypeError)
  }

  /** Saving with a selection that names axis `n` (such as `"Axis n"`, see
      `AxisLabelRoundTrip`) stores the reading under key `n - 1`. */
  lemma SaveOfLabelledAxis(s: SM.Settings, selection: string, n: int, servos: nat, reading: Option<int>)
    ensures 1 <= n <= servos && AxisIndex(selection) == Success(n - 1) && SM.Get(s, H.OffsetsKey, Dict(map[])).Dict? ==>
              OnSave(s, selection, servos, reading)
              == Success(SM.Set(s, H.OffsetsKey, Dict(SM.Get(s, H.OffsetsKey, Dict(map[])).entries[n - 1 := Int(reading.GetOr(0))])))
  {
  }

  /** An offset saved from the wizard for axis `n` is the one the homing
      routine adds to that axis's zero position. */
  lemma SavedOffsetUsedByHoming(s: SM.Settings, n: nat, servos: nat, reading: Option<int>)
    requires 1 <= n <= 6 && n <= servos
    requires SM.Get(s, H.OffsetsKey, Dict(map[])).Dict?
    ensures OnSave(s, AxisLabel(n), servos, reading).Success?
    ensures H.RawTarget(H.ToZero, n, H.ReadConfig(OnSave(s, AxisLabel(n), servos, reading).value).offsets)
            == Success((H.Lookup(H.ZeroPositions, n) as real + reading.GetOr(0) as real) * 100.0)
  {
    AxisLabelRoundTrip(n);
    SaveOfLabelledAxis(s, AxisLabel(n), n, servos, reading);
    SavedOffsetTarget(s, n, reading.GetOr(0));
  }

  /** Homing's target for axis `n` after the reading `x` is stored under
      key `n - 1` of a dictionary offset map. */
  lemma SavedOffsetTarget(s: SM.Settings, n: int, x: int)
    requires SM.Get(s, H.OffsetsKey, Dict(map[])).Dict?
    ensures H.RawTarget(H.ToZero, n, H.ReadConfig(SM.Set(s, H.OffsetsKey, Dict(SM.Get(s, H.OffsetsKey, Dict(map[])).entries[n - 1 := Int(x)]))).offsets)
            == Success((H.Lookup(H.ZeroPositions, n) as real + x as real) * 100.0)
  {
    var offsets := Dict(SM.Get(s, H.OffsetsKey, Dict(map[])).entries[n - 1 := Int(x)]);
    OffsetsReadBack(s, offsets);
    assert AsReal(offsets.entries[n - 1]) == Some(x as real);
    StoredOffsetTarget(n, offsets, x as real);
  }

  lemma OffsetsReadBack(s: SM.Settings, offsets: Value)
    ensures H.ReadConfig(SM.Set(s, H.OffsetsKey, offsets)).offsets == offsets
  {
  }

  lemma StoredOffsetTarget(n: int, offsets: Value, x: real)
    requires offsets.Dict? && n - 1 in offsets.entries && AsReal(offsets.entries[n - 1]) == Some(x)
    ensures H.RawTarget(H.ToZero, n, offsets) == Success((H.Lookup(H.ZeroPositions, n) as real + x) * 100.0)
  {
  }
}
