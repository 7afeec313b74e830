/**
 * The part of the import-time start-up that the modelled steps make up: scan for
 * Cheat Engine, load the settings, repair the download path, pick the dropdown
 * arrow for the loaded theme.
 */
module Bootstrap {
  import opened Wrappers
  import Paths
  import Locale
  import CheatEngine
  import Settings
  import Theme

  /**
   * `cePath` is what the scan found and went into the defaults. The ensures give
   * the new settings and file for every outcome: the merged record, with the
   * download path reset to the default when the first creation fails.
   */
  method Start(config: Settings.Config, listing: Option<seq<string>>, systemLocale: Option<string>,
               appData: string, localAppData: string, makedirs: string -> bool, resourcePath: string -> string)
    returns (cePath: Option<string>, outcome: Outcome<Settings.Error>, dropdownArrow: Option<string>)
    modifies config
    ensures listing.None? ==> cePath.None?
    ensures listing.Some? ==> (cePath.None? <==> forall j | 0 <= j < |listing.value| :: CheatEngine.CandidateVersion(listing.value[j]).None?)
    ensures cePath.Some? ==> listing.Some? && exists k ::
      CheatEngine.IsLatest(listing.value, k) && cePath.value == Paths.JoinPath(CheatEngine.BasePath, listing.value[k])
    ensures var defaults := Settings.DefaultSettings(Locale.ResolveLanguage(systemLocale), appData, localAppData, cePath);
      var fallback := Settings.DefaultDownloadPath(appData);
      match Settings.LoadedSettings(old(config.stored), defaults)
      case Failure(e) =>
        outcome == Fail(e) && dropdownArrow.None?
        && config.settings == old(config.settings) && config.stored == old(config.stored)
      case Success(record) =>
        && config.stored == Some(Settings.Object(config.settings))
        && (Settings.CreatesDownloadDirectory(record, makedirs) ==> outcome == Pass && config.settings == record)
        && (!Settings.CreatesDownloadDirectory(record, makedirs) ==>
              config.settings == record["downloadPath" := Settings.Str(fallback)]
              && outcome == (if makedirs(fallback) then Pass else Fail(Settings.CannotCreateDirectory(fallback))))
    ensures outcome.Pass? ==> config.Synced() && Settings.CreatesDownloadDirectory(config.settings, makedirs)
    ensures outcome.Fail? ==> dropdownArrow.None?
    ensures outcome.Pass? ==> dropdownArrow == Theme.DropdownArrowPath(config.settings["theme"], resourcePath)
    ensures outcome.Pass? && dropdownArrow.Some? ==> '\\' !in dropdownArrow.value
  {
    dropdownArrow := None;
    cePath := CheatEngine.FindCEInstallPath(listing);
    outcome := config.Load(systemLocale, appData, localAppData, cePath);
    if outcome.Fail? {
      return;
    }
    outcome := config.EnsureDownloadPathIsValid(appData, makedirs);
    if outcome.Fail? {
      return;
    }
    dropdownArrow := Theme.DropdownArrowPath(config.settings["theme"], resourcePath);
  }
}
