/**
 * The settings record: its default values, the merge that fills in missing
 * keys, and the module-level state that `load_settings`, `apply_settings` and
 * `ensure_trainer_download_path_is_valid` update.
 */
module Settings {
  import opened Wrappers
  import opened Paths
  import Locale

  /** A JSON value as `json.load` returns it. */
  datatype Value =
    | Null
    | Bool(b: bool)
    | Number(n: real)
    | Str(s: string)
    | Array(items: seq<Value>)
    | Object(fields: map<string, Value>)

  type Record = map<string, Value>

  datatype Error =
    | SettingsNotAnObject                    // `setdefault` on something `json.load` returned that is no dict
    | CannotCreateDirectory(path: string)    // the retried `os.makedirs` failed

  /** The keys `default_settings` defines. */
  const DefaultKeys: set<string> := {
    "downloadPath", "language", "theme", "enSearchResults", "appUpdate", "autoStart", "showWarning",
    "downloadServer", "removeBgMusic", "autoUpdateDatabase", "autoUpdateFling", "enableXiaoxing",
    "weModPath", "cePath"
  }

  /** `os.path.join(os.environ["APPDATA"], "GCM Trainers")`. */
  function DefaultDownloadPath(appData: string): (p: string)
    ensures StartsWith(p, appData)
    ensures |p| >= |"GCM Trainers"| && p[|p| - |"GCM Trainers"|..] == "GCM Trainers"
  {
    JoinPath(appData, "GCM Trainers")
  }

  /** `os.path.join(os.environ["LOCALAPPDATA"], "WeMod")`. */
  function WeModInstallPath(localAppData: string): (p: string)
    ensures StartsWith(p, localAppData)
    ensures |p| >= |"WeMod"| && p[|p| - |"WeMod"|..] == "WeMod"
  {
    JoinPath(localAppData, "WeMod")
  }

  /** The entries of `default_settings` that do not depend on the environment. */
  const FixedDefaults: Record := map[
    "theme" := Str("black"),
    "enSearchResults" := Bool(false),
    "appUpdate" := Bool(true),
    "autoStart" := Bool(false),
    "showWarning" := Bool(true),
    "downloadServer" := Str("intl"),
    "removeBgMusic" := Bool(true),
    "autoUpdateDatabase" := Bool(true),
    "autoUpdateFling" := Bool(true),
    "enableXiaoxing" := Bool(true)
  ]

  /** The entries of `default_settings` that depend on the environment. */
  function EnvironmentDefaults(appLocale: string, appData: string, localAppData: string, cePath: Option<string>): (e: Record)
    ensures e.Keys == {"downloadPath", "language", "weModPath", "cePath"}
  {
    map[
      "downloadPath" := Str(DefaultDownloadPath(appData)),
      "language" := Str(appLocale),
      "weModPath" := Str(WeModInstallPath(localAppData)),
      "cePath" := if cePath.Some? then Str(cePath.value) else Null
    ]
  }

  /**
   * `default_settings`, given the resolved language, the two data directories and
   * the Cheat Engine path found by the scan (`None` is stored as JSON `null`).
   */
  function DefaultSettings(appLocale: string, appData: string, localAppData: string, cePath: Option<string>): (d: Record)
    ensures d.Keys == DefaultKeys
  {
    FixedDefaults + EnvironmentDefaults(appLocale, appData, localAppData, cePath)
  }

  /** The defaults hold the default download path, the resolved language and the scanned Cheat Engine path. */
  lemma DefaultValues(appLocale: string, appData: string, localAppData: string, cePath: Option<string>)
    ensures var d := DefaultSettings(appLocale, appData, localAppData, cePath);
      && d["downloadPath"] == Str(DefaultDownloadPath(appData))
      && d["language"] == Str(appLocale)
      && d["weModPath"] == Str(WeModInstallPath(localAppData))
      && d["cePath"] == (if cePath.Some? then Str(cePath.value) else Null)
  {
    var e := EnvironmentDefaults(appLocale, appData, localAppData, cePath);
    assert e["downloadPath"] == Str(DefaultDownloadPath(appData));
    assert e["language"] == Str(appLocale);
  }

  /** The language stored in the defaults is always one the application supports. */
  lemma DefaultLanguageIsSupported(systemLocale: Option<string>, appData: string, localAppData: string, cePath: Option<string>)
    ensures var d := DefaultSettings(Locale.ResolveLanguage(systemLocale), appData, localAppData, cePath);
      d["language"].Str? && d["language"].s in Locale.SupportedLanguages
  {
    DefaultValues(Locale.ResolveLanguage(systemLocale), appData, localAppData, cePath);
  }

  /**
   * Reference definition of the merge: every key of the loaded record keeps its
   * value, and every default key it lacks takes the default.
   */
  function WithDefaults(loaded: Record, defaults: Record): (r: Record)
    ensures r.Keys == loaded.Keys + defaults.Keys
  {
    map k | k in loaded.Keys + defaults.Keys :: if k in loaded then loaded[k] else defaults[k]
  }

  /** `for key, value in default_settings.items(): settings.setdefault(key, value)`. */
  method MergeDefaults(loaded: Record, defaults: Record) returns (settings: Record)
    ensures settings == WithDefaults(loaded, defaults)
    ensures settings.Keys == loaded.Keys + defaults.Keys
    ensures forall k | k in loaded :: settings[k] == loaded[k]
    ensures forall k | k in defaults && k !in loaded :: settings[k] == defaults[k]
  {
    settings := loaded;
    var remaining := defaults.Keys;
    while remaining != {}
      invariant remaining <= defaults.Keys
      invariant settings.Keys == loaded.Keys + (defaults.Keys - remaining)
      invariant forall k | k in settings :: settings[k] == if k in loaded then loaded[k] else defaults[k]
      decreases remaining
    {
      var key :| key in remaining;
      if key !in settings {
        settings := settings[key := defaults[key]];
      }
      remaining := remaining - {key};
    }
  }

  /** The merge is additive: a record that already has every default key is left as it is. */
  lemma MergeKeepsCompleteRecord(loaded: Record, defaults: Record)
    requires defaults.Keys <= loaded.Keys
    ensures WithDefaults(loaded, defaults) == loaded
  {
  }

  /** Merging a merged record against the same defaults changes nothing. */
  lemma MergeIsIdempotent(loaded: Record, defaults: Record)
    ensures WithDefaults(WithDefaults(loaded, defaults), defaults) == WithDefaults(loaded, defaults)
  {
    MergeKeepsCompleteRecord(WithDefaults(loaded, defaults), defaults);
  }

  /**
   * The record `load_settings` ends with, given what reading and parsing the file
   * produced (`None` when opening, reading or parsing raised). A parsed value that
   * is not an object makes `setdefault` raise outside the `try`.
   */
  function LoadedSettings(read: Option<Value>, defaults: Record): (r: Result<Record, Error>)
    ensures read.None? ==> r == Success(defaults)
    ensures read.Some? && !read.value.Object? ==> r == Failure(SettingsNotAnObject)
    ensures r.Success? ==> defaults.Keys <= r.value.Keys
    ensures read.Some? && read.value.Object? ==> (r.Success?
      && read.value.fields.Keys <= r.value.Keys
      && r.value.Keys == read.value.fields.Keys + defaults.Keys
      && (forall k | k in read.value.fields :: r.value[k] == read.value.fields[k])
      && (forall k | k in defaults && k !in read.value.fields :: r.value[k] == defaults[k]))
  {
    match read
    case None =>
      // `settings = default_settings`, then `setdefault` on the same dict
      MergeKeepsCompleteRecord(defaults, defaults);
      Success(WithDefaults(defaults, defaults))
    case Some(Object(fields)) => Success(WithDefaults(fields, defaults))
    case Some(_) => Failure(SettingsNotAnObject)
  }

  /** Loading a file that holds what the last load wrote reproduces the same record. */
  lemma LoadIsIdempotent(read: Option<Value>, defaults: Record)
    requires LoadedSettings(read, defaults).Success?
    ensures var m := LoadedSettings(read, defaults).value;
      LoadedSettings(Some(Object(m)), defaults) == Success(m)
  {
    var m := LoadedSettings(read, defaults).value;
    MergeKeepsCompleteRecord(m, defaults);
  }

  /** A saved record that has every default key is exactly what the next load returns. */
  lemma SaveThenLoad(record: Record, defaults: Record)
    requires defaults.Keys <= record.Keys
    ensures LoadedSettings(Some(Object(record)), defaults) == Success(record)
  {
    MergeKeepsCompleteRecord(record, defaults);
  }

  /** The first `os.makedirs(settings["downloadPath"])` succeeds: the key is present, holds a string, and the oracle creates it. */
  predicate CreatesDownloadDirectory(settings: Record, makedirs: string -> bool) {
    "downloadPath" in settings && settings["downloadPath"].Str? && makedirs(settings["downloadPath"].s)
  }

  /**
   * The module-level settings state: `settings` is the dict the rest of the
   * application reads, `stored` what reading `settings.json` would give
   * (`None` while the file is missing or unparseable).
   */
  class Config {
    var settings: Record
    var stored: Option<Value>

    /** After a load, every default key is present and the file holds the record. */
    ghost predicate Synced()
      reads this
    {
      DefaultKeys <= settings.Keys && stored == Some(Object(settings))
    }

    constructor (stored: Option<Value>)
      ensures this.stored == stored && settings == map[]
    {
      this.stored := stored;
      settings := map[];
    }

    /** `apply_settings`: overwrites the file with the given record. */
    method Apply(record: Record)
      modifies this
      ensures stored == Some(Object(record)) && settings == old(settings)
    {
      stored := Some(Object(record));
    }

    /**
     * `settings = load_settings()`: resolve the language, build the defaults,
     * read the file, merge, write the result back. `systemLocale` is
     * `locale.getlocale()[0]`; the directories are `APPDATA` and `LOCALAPPDATA`.
     */
    method Load(systemLocale: Option<string>, appData: string, localAppData: string, cePath: Option<string>)
      returns (outcome: Outcome<Error>)
      modifies this
      ensures var defaults := DefaultSettings(Locale.ResolveLanguage(systemLocale), appData, localAppData, cePath);
        match LoadedSettings(old(stored), defaults)
        case Success(record) => outcome == Pass && settings == record && stored == Some(Object(record))
        case Failure(e) => outcome == Fail(e) && settings == old(settings) && stored == old(stored)
      ensures outcome.Pass? ==> Synced()
    {
      var appLocale := Locale.ResolveLanguage(systemLocale);
      var defaults := DefaultSettings(appLocale, appData, localAppData, cePath);
      var loaded: Record;
      match stored {
        case None =>
          loaded := defaults;
        case Some(v) =>
          if !v.Object? {
            return Fail(SettingsNotAnObject);
          }
          loaded := v.fields;
      }
      var merged := MergeDefaults(loaded, defaults);
      settings := merged;
      stored := Some(Object(merged));
      outcome := Pass;
    }

    /**
     * `ensure_trainer_download_path_is_valid`, with `os.makedirs` as the oracle
     * `makedirs`. When the first attempt fails (including a missing or non-string
     * `downloadPath`), the path is reset to the default under `APPDATA`, the
     * settings are written, and creation is tried once more.
     */
    method EnsureDownloadPathIsValid(appData: string, makedirs: string -> bool) returns (outcome: Outcome<Error>)
      modifies this
      ensures CreatesDownloadDirectory(old(settings), makedirs) ==>
        outcome == Pass && settings == old(settings) && stored == old(stored)
      ensures !CreatesDownloadDirectory(old(settings), makedirs) ==>
        settings == old(settings)["downloadPath" := Str(DefaultDownloadPath(appData))]
        && stored == Some(Object(settings))
        && outcome == (if makedirs(DefaultDownloadPath(appData)) then Pass
                       else Fail(CannotCreateDirectory(DefaultDownloadPath(appData))))
      ensures old(Synced()) ==> Synced()
    {
      if CreatesDownloadDirectory(settings, makedirs) {
        return Pass;
      }
      var fallback := DefaultDownloadPath(appData);
      settings := settings["downloadPath" := Str(fallback)];
      Apply(settings);
      if makedirs(fallback) {
        outcome := Pass;
      } else {
        outcome := Fail(CannotCreateDirectory(fallback));
      }
    }
  }
}
