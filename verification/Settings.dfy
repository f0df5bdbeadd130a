/** The JSON settings file (settings.py): defaults merged into whatever the
    file holds, single-key reads, writes and boolean toggles. The file is
    `None` when it is missing or is not valid JSON, and otherwise the object
    it holds. Writing the file is an outcome passed in as `saved`. */
module Settings {
  import opened Wrappers

  /** A JSON value as `json.load` returns it. */
  datatype Value =
    | Null
    | Bool(b: bool)
    | Int(i: int)
    | Str(s: string)
    | List(items: seq<Value>)
    | Object(fields: map<string, Value>)

  type Settings = map<string, Value>

  /** DEFAULT_SETTINGS. */
  const Defaults: Settings := map[
    "morning_notification" := Bool(true),
    "morning_notification_hour" := Int(9),
    "match_reminder_minutes" := Int(30),
    "goal_notification" := Bool(true),
    "lineup_notification" := Bool(true)]

  /** Python truthiness of a JSON value. */
  predicate Truthy(v: Value)
  {
    match v
    case Null => false
    case Bool(b) => b
    case Int(i) => i != 0
    case Str(s) => |s| > 0
    case List(items) => |items| > 0
    case Object(fields) => |fields| > 0
  }

  /** load_settings: the file's object with every missing default key added,
      or a copy of the defaults when the file is missing or is not valid
      JSON. */
  function LoadSettings(file: Option<Settings>): (r: Settings)
    ensures file.None? ==> r == Defaults
    ensures file.Some? ==> r.Keys == file.value.Keys + Defaults.Keys
    ensures file.Some? ==> forall k :: k in file.value ==> r[k] == file.value[k]
    ensures forall k :: k in Defaults && (file.None? || k !in file.value) ==> r[k] == Defaults[k]
  {
    match file
    case None => Defaults
    case Some(stored) =>
      map k | k in stored.Keys + Defaults.Keys :: if k in stored then stored[k] else Defaults[k]
  }

  /** Loading what a load produced changes nothing. */
  lemma LoadSettingsIdempotent(file: Option<Settings>)
    ensures LoadSettings(Some(LoadSettings(file))) == LoadSettings(file)
  {
    var once := LoadSettings(file);
    var twice := LoadSettings(Some(once));
    assert twice.Keys == once.Keys;
    forall k | k in once ensures twice[k] == once[k] { }
  }

  /** `d.get(key, fallback)`. */
  function Get(d: Settings, key: string, fallback: Value): (r: Value)
    ensures key in d ==> r == d[key]
    ensures key !in d ==> r == fallback
  {
    if key in d then d[key] else fallback
  }

  /** get_setting: the loaded value, else the default, else `None`. */
  function GetSetting(file: Option<Settings>, key: string): (r: Value)
    ensures file.Some? && key in file.value ==> r == file.value[key]
    ensures (file.None? || key !in file.value) && key in Defaults ==> r == Defaults[key]
    ensures (file.None? || key !in file.value) && key !in Defaults ==> r == Null
  {
    Get(LoadSettings(file), key, Get(Defaults, key, Null))
  }

  /** save_settings: on success the file holds `settings`; on failure the
      old file is kept. Returns whether the write succeeded. */
  function SaveSettings(file: Option<Settings>, settings: Settings, saved: bool): (r: (Option<Settings>, bool))
    ensures r.1 == saved
    ensures saved ==> r.0 == Some(settings)
    ensures !saved ==> r.0 == file
  {
    if saved then (Some(settings), true) else (file, false)
  }

  /** update_setting: load, set one key, save. */
  function UpdateSetting(file: Option<Settings>, key: string, value: Value, saved: bool): (r: (Option<Settings>, bool))
    ensures r.1 == saved
    ensures !saved ==> r.0 == file
    ensures saved ==> r.0.Some? && r.0.value.Keys == LoadSettings(file).Keys + {key}
    ensures saved ==> r.0 == Some(LoadSettings(file)[key := value])
    ensures saved ==> GetSetting(r.0, key) == value
    ensures saved ==> forall k :: k != key ==> GetSetting(r.0, k) == GetSetting(file, k)
  {
    SaveSettings(file, LoadSettings(file)[key := value], saved)
  }

  /** After a successful update the key reads back as the new value and
      every other key reads back as it did before. */
  lemma UpdateChangesOnlyKey(file: Option<Settings>, key: string, value: Value, other: string)
    requires other != key
    ensures var file1 := UpdateSetting(file, key, value, true).0;
            && GetSetting(file1, key) == value
            && GetSetting(file1, other) == GetSetting(file, other)
  {
  }

  /** toggle_setting: store and return `not current`, where a missing key
      falls back to its default and then to False. The result is returned
      whether or not the write succeeded. */
  function ToggleSetting(file: Option<Settings>, key: string, saved: bool): (r: (Option<Settings>, bool))
    ensures r.1 == !Truthy(GetSetting(file, key))
    ensures saved ==> r.0.Some? && r.0.value == LoadSettings(file)[key := Bool(r.1)]
    ensures !saved ==> r.0 == file
  {
    var settings := LoadSettings(file);
    var current := Get(settings, key, Get(Defaults, key, Bool(false)));
    var newValue := !Truthy(current);
    (SaveSettings(file, settings[key := Bool(newValue)], saved).0, newValue)
  }

  /** Two successful toggles of a key that reads as a boolean restore it
      and leave every other key as it was; the two results are opposite. */
  lemma ToggleTwice(file: Option<Settings>, key: string, other: string)
    requires GetSetting(file, key).Bool?
    ensures var (file1, r1) := ToggleSetting(file, key, true);
            var (file2, r2) := ToggleSetting(file1, key, true);
            && GetSetting(file2, key) == GetSetting(file, key)
            && r2 == GetSetting(file, key).b && r1 == !r2
            && (other != key ==> GetSetting(file2, other) == GetSetting(file, other))
  {
    var (file1, r1) := ToggleSetting(file, key, true);
    var (file2, r2) := ToggleSetting(file1, key, true);
    assert GetSetting(file1, key) == Bool(r1);
    if other != key {
      UpdateChangesOnlyKey(file, key, Bool(r1), other);
      UpdateChangesOnlyKey(file1, key, Bool(r2), other);
    }
  }
}
