/**
 * The user settings: a map from names to JSON values, starting from fixed
 * defaults, overridden key by key by the settings file when it can be read,
 * and saved whole after every change. A save is recorded as the map it
 * wrote; reading and writing the file is not modelled, what the file held
 * (or that it could not be read) is the constructor's input.
 */
module SettingsStore {
  import opened Wrappers

  /** The JSON values the settings hold. */
  datatype Setting = Flag(b: bool) | Number(n: int) | Str(s: string)

  /** `DEFAULT_SETTINGS`. */
  function DefaultSettings(): (m: map<string, Setting>)
    ensures m.Keys == {"show_breaks", "auto_start_breaks", "auto_start_exercises", "break_duration"}
    ensures m["show_breaks"] == Flag(true) && m["auto_start_breaks"] == Flag(true)
    ensures m["auto_start_exercises"] == Flag(true) && m["break_duration"] == Number(10)
  {
    map["show_breaks" := Flag(true),
        "auto_start_breaks" := Flag(true),
        "auto_start_exercises" := Flag(true),
        "break_duration" := Number(10)]
  }

  /** `dict.update`: every key of `loaded` takes its value there, every other key keeps its own. */
  function Update(base: map<string, Setting>, loaded: map<string, Setting>): (r: map<string, Setting>)
    ensures r.Keys == base.Keys + loaded.Keys
    ensures forall k :: k in loaded ==> r[k] == loaded[k]
    ensures forall k :: k in base && k !in loaded ==> r[k] == base[k]
  {
    base + loaded
  }

  /** `dict.get(key, default)`; `None` stands for Python's `None`. */
  function Lookup(m: map<string, Setting>, key: string, default: Option<Setting>): (r: Option<Setting>)
    ensures key in m ==> r == Some(m[key])
    ensures key !in m ==> r == default
  {
    if key in m then Some(m[key]) else default
  }

  /** `Settings`: the current map and the maps saved so far. */
  class Settings {
    var settings: map<string, Setting>
    var saves: seq<map<string, Setting>>

    /**
     * `__init__` with `_load_settings`: `loaded` is the map the settings
     * file held, `None` when there is no file or it could not be read or
     * decoded; nothing is saved.
     */
    constructor (loaded: Option<map<string, Setting>>)
      ensures loaded.None? ==> settings == DefaultSettings()
      ensures loaded.Some? ==> settings == Update(DefaultSettings(), loaded.value)
      ensures saves == []
    {
      var current := DefaultSettings();
      if loaded.Some? {
        current := Update(current, loaded.value);
      }
      settings := current;
      saves := [];
    }

    /** `get`. */
    function Get(key: string, default: Option<Setting>): (r: Option<Setting>)
      reads this
      ensures key in settings ==> r == Some(settings[key])
      ensures key !in settings ==> r == default
    {
      Lookup(settings, key, default)
    }

    /** `set`: only `key` changes, then the whole map is saved. */
    method Set(key: string, value: Setting)
      modifies this
      ensures settings == old(settings)[key := value]
      ensures saves == old(saves) + [settings]
    {
      settings := settings[key := value];
      saves := saves + [settings];
    }

    /** `reset_to_defaults`: the defaults again, whatever was set, then saved. */
    method ResetToDefaults()
      modifies this
      ensures settings == DefaultSettings()
      ensures saves == old(saves) + [DefaultSettings()]
    {
      settings := DefaultSettings();
      saves := saves + [settings];
    }
  }

  /** Keys the file holds take its values; keys it lacks keep their defaults. */
  lemma LoadedOverridesDefaults(loaded: map<string, Setting>, key: string, default: Option<Setting>)
    ensures key in loaded ==> Lookup(Update(DefaultSettings(), loaded), key, default) == Some(loaded[key])
    ensures key !in loaded && key in DefaultSettings() ==>
              Lookup(Update(DefaultSettings(), loaded), key, default) == Some(DefaultSettings()[key])
    ensures key !in loaded && key !in DefaultSettings() ==>
              Lookup(Update(DefaultSettings(), loaded), key, default) == default
  {
  }

  /**
   * A session of edits: changing the settings and then resetting them
   * leaves exactly the defaults, and the defaults themselves never change.
   */
  method SetThenReset(s: Settings, key: string, value: Setting)
    modifies s
    ensures s.settings == DefaultSettings()
    ensures |s.saves| == |old(s.saves)| + 2
    ensures s.saves[|s.saves| - 2] == old(s.settings)[key := value]
    ensures s.saves[|s.saves| - 1] == DefaultSettings()
  {
    s.Set(key, value);
    s.ResetToDefaults();
  }
}
