/** The application settings store (`src/utils/settings_manager.py`): a map
    from setting names to values, loaded from a YAML file or from built-in
    defaults, read with a two-level default and updated one key at a time.
    Saving to and loading from disk are left to the caller; only the
    in-memory map is modelled. */
module SettingsManager {
  import opened Wrappers
  import opened Values

  type Settings = map<string, Value>

  /** `DEFAULT_SETTINGS`. */
  const DefaultSettings: Settings := map[
    "theme" := Str("Light"),
    "language" := Str("English"),
    "ui_color_theme" := Str("Blue"),
    "max_fps" := Int(30),
    "auto_update_saved_poses" := Bool(false),
    "joint_directions" := JointDict(Int(1))
  ]

  /** What the configuration file held: no file at all, or a document that
      parsed to a mapping (`None` for an empty or `null` document). */
  datatype ConfigFile = NoFile | Document(content: Option<Settings>)

  /** `SettingsManager.__init__`: the file's settings, or the defaults when the
      file is missing, empty, `null` or an empty mapping. */
  function Load(f: ConfigFile): (s: Settings)
    ensures f.NoFile? ==> s == DefaultSettings
    ensures f.Document? && (f.content.None? || |f.content.value| == 0) ==> s == DefaultSettings
    ensures f.Document? && f.content.Some? && |f.content.value| > 0 ==> s == f.content.value
  {
    match f
    case NoFile => DefaultSettings
    case Document(c) => if c.Some? && |c.value| > 0 then c.value else DefaultSettings
  }

  /** `get(key, default)`: the stored value wins; otherwise the caller's
      default unless it is `None`; otherwise the built-in default, or `None`. */
  function Get(s: Settings, key: string, default: Value): (v: Value)
    ensures key in s ==> v == s[key]
    ensures key !in s && default != Null ==> v == default
    ensures key !in s && default == Null && key in DefaultSettings ==> v == DefaultSettings[key]
    ensures key !in s && default == Null && key !in DefaultSettings ==> v == Null
  {
    if key in s then s[key]
    else if default != Null then default
    else if key in DefaultSettings then DefaultSettings[key]
    else Null
  }

  /** `set(key, value)`: afterwards `get(key)` yields `value` and every other
      key reads as before. */
  function Set(s: Settings, key: string, value: Value): (r: Settings)
    ensures r.Keys == s.Keys + {key}
    ensures forall d :: Get(r, key, d) == value
    ensures forall k, d :: k != key ==> Get(r, k, d) == Get(s, k, d)
  {
    s[key := value]
  }

  /** `all()`: the whole current map. */
  function All(s: Settings): (r: Settings)
    ensures forall k :: k in r ==> Get(s, k, Null) == r[k]
    ensures r.Keys == s.Keys
  {
    s
  }

  /** A freshly loaded store without a usable file answers every key as the
      built-in defaults do. */
  lemma FreshStoreReadsDefaults(f: ConfigFile, key: string)
    requires f.NoFile? || (f.Document? && f.content.None?)
    ensures Get(Load(f), key, Null) == (if key in DefaultSettings then DefaultSettings[key] else Null)
  {
  }
}
