/** The homing-offsets table of the settings page
    (`src/pages/settings/tabs/homing_tab.py`). The table shows one offset per
    axis of the homing sequence, keyed 1-based; every edit writes the whole
    table back to the settings keyed 0-based. In coupled B/C mode only axes
    1-4 are shown, so a save drops whatever was stored for joints 5 and 6. */
module HomingTab {
  import opened Wrappers
  import opened PyOps
  import opened Values
  import opened Servo
  import SM = SettingsManager
  import H = Homing
  import HF = HandlerFactories

  const CoupledKey: string := "coupled_axis_mode"

  /** The axes the tab shows: all six, or the first four in coupled mode. */
  function Sequence(s: SM.Settings): (axes: seq<int>)
    ensures Truthy(SM.Get(s, CoupledKey, Bool(false))) ==> axes == [1, 2, 3, 4]
    ensures !Truthy(SM.Get(s, CoupledKey, Bool(false))) ==> axes == H.MotorIds
    ensures forall i :: 0 <= i < |axes| ==> axes[i] == i + 1
  {
    if Truthy(SM.Get(s, CoupledKey, Bool(false))) then [1, 2, 3, 4] else [1, 2, 3, 4, 5, 6]
  }

  /** The table: axis (1-based) to the offset shown for it. */
  type Table = map<int, Value>

  /** `{axis: raw_offsets.get(axis - 1, 0) for axis in HOMING_SEQUENCE}`; a
      stored value without `.get` raises `AttributeError`. */
  function DisplayOffsets(s: SM.Settings): (r: Result<Table, PyError>)
    ensures r.Success? <==> SM.Get(s, H.OffsetsKey, Dict(map[])).Dict?
    ensures r.Failure? ==> r.error == AttributeError
    ensures r.Success? ==> forall a :: a in r.value <==> a in Sequence(s)
    ensures r.Success? ==>
              var raw := SM.Get(s, H.OffsetsKey, Dict(map[])).entries;
              forall a :: a in r.value ==> r.value[a] == (if a - 1 in raw then raw[a - 1] else Int(0))
  {
    var raw := SM.Get(s, H.OffsetsKey, Dict(map[]));
    if !raw.Dict? then Failure(AttributeError)
    else Success(map a | a in Sequence(s) :: if a - 1 in raw.entries then raw.entries[a - 1] else Int(0))
  }

  /** The 0-based keys of the 1-based axes in `axes`. */
  function ZeroBased(axes: seq<int>): (keys: set<int>)
    ensures forall k :: k - 1 in keys <==> k in axes
  {
    if |axes| == 0 then {}
    else
      assert forall k :: k in axes <==> k == axes[0] || k in axes[1..];
      {axes[0] - 1} + ZeroBased(axes[1..])
  }

  /** `{k - 1: v for k, v in offsets.items() if k in HOMING_SEQUENCE}`. */
  function SaveMap(table: Table, axes: seq<int>): (m: map<int, Value>)
    ensures forall k :: k - 1 in m <==> k in table && k in axes
    ensures forall k :: k in table && k in axes ==> m[k - 1] == table[k]
  {
    map j | j in ZeroBased(axes) && j + 1 in table :: table[j + 1]
  }

  /** What an edit leaves: the table the tab keeps, and the settings. */
  datatype Edited = Edited(table: Table, settings: SM.Settings)

  /** The handler of axis `axis`'s field: the table takes the new value and
      is saved whole as the `homing_offsets` setting. */
  function EditOffset(table: Table, axes: seq<int>, s: SM.Settings, axis: int, v: Value): (r: Edited)
    ensures r.table == table[axis := v]
    ensures SM.Get(r.settings, H.OffsetsKey, Null).Dict?
    ensures var stored := SM.Get(r.settings, H.OffsetsKey, Null).entries;
            && (forall k :: k - 1 in stored <==> k in r.table && k in axes)
            && (axis in axes ==> axis - 1 in stored && stored[axis - 1] == v)
            && (forall b :: b in table && b in axes && b != axis ==> b - 1 in stored && stored[b - 1] == table[b])
    ensures forall key, d :: key != H.OffsetsKey ==> SM.Get(r.settings, key, d) == SM.Get(s, key, d)
  {
    var table' := table[axis := v];
    Edited(table', SM.Set(s, H.OffsetsKey, Dict(SaveMap(table', axes))))
  }

  /** An edit does not change which axes the tab shows. */
  lemma EditKeepsSequence(table: Table, axes: seq<int>, s: SM.Settings, axis: int, v: Value)
    ensures Sequence(EditOffset(table, axes, s, axis, v).settings) == Sequence(s)
  {
    var r := EditOffset(table, axes, s, axis, v);
    assert SM.Get(r.settings, CoupledKey, Bool(false)) == SM.Get(s, CoupledKey, Bool(false));
  }

  /** Reading the table back from a settings store it was just saved to
      gives the same table: the display and the save are inverse. */
  lemma DisplayAfterEdit(table: Table, s: SM.Settings, axis: int, v: Value)
    requires forall a :: a in table <==> a in Sequence(s)
    requires axis in Sequence(s)
    ensures var r := EditOffset(table, Sequence(s), s, axis, v);
            DisplayOffsets(r.settings) == Success(r.table)
  {
    var axes := Sequence(s);
    var r := EditOffset(table, axes, s, axis, v);
    EditKeepsSequence(table, axes, s, axis, v);
    var stored := SM.Get(r.settings, H.OffsetsKey, Null).entries;
    assert SM.Get(r.settings, H.OffsetsKey, Dict(map[])) == Dict(stored);
    var shown := DisplayOffsets(r.settings).value;
    assert forall a :: a in shown <==> a in r.table;
    forall a | a in shown ensures shown[a] == r.table[a] {
      assert a - 1 in stored && stored[a - 1] == r.table[a];
    }
    SameEntries(shown, r.table);
  }

  /** Two tables with the same axes and the same entry for each are equal. */
  lemma SameEntries(m: Table, n: Table)
    requires forall a :: a in m <==> a in n
    requires forall a :: a in m ==> m[a] == n[a]
    ensures m == n
  {
    assert forall a :: a in m ==> a in n && m[a] == n[a];
    assert forall a :: a in n ==> a in m;
  }

  /** In coupled mode an edit leaves nothing stored for joints 5 and 6
      (0-based keys 4 and 5), whatever was saved for them before. */
  lemma CoupledEditDropsWristOffsets(table: Table, s: SM.Settings, axis: int, v: Value)
    requires Truthy(SM.Get(s, CoupledKey, Bool(false)))
    ensures var stored := SM.Get(EditOffset(table, Sequence(s), s, axis, v).settings, H.OffsetsKey, Null).entries;
            4 !in stored && 5 !in stored
  {
    var axes := Sequence(s);
    assert axes == [1, 2, 3, 4];
    assert 5 !in axes && 6 !in axes;
    HiddenAxisNotStored(table, axes, s, axis, v, 5);
    HiddenAxisNotStored(table, axes, s, axis, v, 6);
  }

  /** An axis the tab does not show has nothing stored after an edit. */
  lemma HiddenAxisNotStored(table: Table, axes: seq<int>, s: SM.Settings, axis: int, v: Value, k: int)
    requires k !in axes
    ensures k - 1 !in SM.Get(EditOffset(table, axes, s, axis, v).settings, H.OffsetsKey, Null).entries
  {
  }

  /** The wizard's axis choices, `f"Axis {i}"` for each axis shown. */
  function AxisOptions(axes: seq<int>): (opts: seq<string>)
    requires forall i :: 0 <= i < |axes| ==> axes[i] >= 0
    ensures |opts| == |axes|
    ensures forall i :: 0 <= i < |axes| ==> HF.AxisIndex(opts[i]) == Success(axes[i] - 1)
  {
    LabelsRoundTrip(axes);
    seq(|axes|, i requires 0 <= i < |axes| => HF.AxisLabel(axes[i]))
  }

  lemma LabelsRoundTrip(axes: seq<int>)
    requires forall i :: 0 <= i < |axes| ==> axes[i] >= 0
    ensures forall i :: 0 <= i < |axes| ==> HF.AxisIndex(HF.AxisLabel(axes[i])) == Success(axes[i] - 1)
  {
    forall n: nat ensures HF.AxisIndex(HF.AxisLabel(n)) == Success(n - 1) {
      HF.AxisLabelRoundTrip(n);
    }
  }

  /** Each option of the tab selects the servo of its own axis. */
  lemma OptionsSelectTheirServo(s: SM.Settings, i: int, servos: nat)
    requires 0 <= i < |Sequence(s)| && servos >= 6
    ensures HF.OnHome(AxisOptions(Sequence(s))[i], servos) == Success(GoHome(i))
  {
    var axes := Sequence(s);
    HF.AxisLabelRoundTrip(axes[i]);
  }
}
