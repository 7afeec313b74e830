# Game Cheats Manager configuration core, in Dafny

This project models the parts of the start-up configuration of Game Cheats
Manager (`src/scripts/config.py`) that are real logic rather than I/O, and proves
what they promise:

- **Locale resolution** (module `Locale`): the fixed table from the operating
  system's locale display string to `en_US`, `zh_CN` or `zh_TW`, with `en_US` as
  the fallback (also when `locale.getlocale()[0]` is `None`); the language and
  font tables.
- **Settings** (module `Settings`): the JSON value type, the default record, the
  `setdefault` merge loop (a method proved against a reference definition), the
  outcome of `load_settings` for every result of reading the file (missing or
  unparseable file, a JSON object, any other JSON value), and a class `Config`
  holding the module-level `settings` dict and the content of `settings.json`,
  with `load_settings`, `apply_settings` and
  `ensure_trainer_download_path_is_valid` as methods.
- **Trainer sort key** (module `TrainerSort`): the `is_chinese` scan over
  U+4E00..U+9FFF and `sort_trainers_key`; the pinyin transliteration is a
  function parameter.
- **Cheat Engine location** (module `CheatEngine`): the leftmost match of
  `Cheat Engine (\d+(?:\.\d+)*)`, `split('.')`, `int`, the zero-padding loop,
  Python's order on integer lists, and the arg-max loop of `findCEInstallPath`
  over a folder listing passed in as a parameter. `CheatEngineExample` works the
  listing `Cheat Engine 7.4`, `Cheat Engine 7.5.1`, `Cheat Engine 6.8` through the
  contract and shows that `C:\Program Files\Cheat Engine 7.5.1` is chosen.
- **Theme** (module `Theme`): the dropdown-arrow branch and the
  `.replace("\\", "/")` normalisation.
- **Start-up** (module `Bootstrap`): the scan, load, repair and theme steps in
  the order the module runs them.

The operating system is passed in: the locale display string, the `APPDATA` and
`LOCALAPPDATA` directories, the listing of `C:\Program Files` (`None` when it
does not exist), `os.makedirs` as an oracle `string -> bool`, `resource_path` as a
function `string -> string`, and the result of reading `settings.json` as an
`Option<Value>` (`None` when opening, reading or parsing raised).

Behaviour worth knowing, as the code does it:

- A settings file that parses to something other than a JSON object (a list, a
  number, `null`) is not caught by the `try`: `setdefault` then raises. The model
  returns `Failure(SettingsNotAnObject)` and leaves the state unchanged.
- In `ensure_trainer_download_path_is_valid`, the lookup `settings["downloadPath"]`
  is inside the `try`, so a missing key or a non-string value is handled like a
  failed `os.makedirs`. The settings are written before the retry, so they are
  written even when the retry fails.
- A theme other than `black` or `white` leaves `dropDownArrow_path` unassigned;
  the model returns `None`.
- Ties between equal versions go to the folder listed first; `7.05` and `7.5`
  are equal versions because `int` ignores leading zeros.

## Model

| member | source | states |
|---|---|---|
| Paths.StartsWith | src/scripts/config.py:135 | `str.startswith`: the prefix is no longer than the text and equals its first characters |
| Paths.JoinPath | src/scripts/config.py:50 | `os.path.join` on Windows: the result starts with the base, ends with the name, and has a backslash between them unless the base is empty, ends in a separator or is a bare drive |
| Locale.ResolveLanguage | src/scripts/config.py:36-47 | the result is always one of `en_US`, `zh_CN`, `zh_TW`; a table key gives its entry, anything else (including `None`) gives `en_US` |
| Locale.ScriptDecidesLanguage | src/scripts/config.py:37-47 | `zh_CN` exactly for the table's `Chinese (Simplified)_` entries, `zh_TW` exactly for its `Chinese (Traditional)_` entries, `en_US` exactly for `English_United States` and every string outside the table |
| Locale.FontConfig | src/scripts/config.py:199-203 | the font table covers exactly the supported languages, which are exactly the codes the language drop-down offers; each font is the resolved bundled asset |
| Locale.ResolvedLanguageHasFontAndOption | src/scripts/config.py:183-203 | whatever the locale, the resolved language has a font and is offered in the language drop-down |
| TrainerSort.IsChinese | src/scripts/config.py:100-104 | the scan returns true iff some character lies in U+4E00..U+9FFF inclusive; false for the empty string |
| TrainerSort.SortTrainersKey | src/scripts/config.py:107-110 | a name with an ideograph maps to its transliteration; any other name is its own key |
| TrainerSort.NamesBelowTheBlockSortAsThemselves | src/scripts/config.py:107-110 | a name whose characters all lie below U+4E00 sorts under itself whatever the transliteration |
| TrainerSort.KeyDiffersOnlyForCjk | src/scripts/config.py:107-110 | a key that differs from the name comes from a name with an ideograph |
| TrainerSort.LanguageLabelsDetected | src/scripts/config.py:183-187 | of the language drop-down labels, exactly the two Chinese ones are detected as Chinese |
| CheatEngine.DigitsEnd | src/scripts/config.py:136 | `\d+` is greedy: the run from `j` is all digits and the next character is not one |
| CheatEngine.GroupsEnd | src/scripts/config.py:136 | `(?:\.\d+)*` is greedy: where it stops, neither a digit nor a dot followed by a digit follows |
| CheatEngine.VersionMatch | src/scripts/config.py:136 | group 1 is a non-empty prefix of the text after the anchor, made of dot-separated non-empty digit groups, that the following text cannot extend |
| CheatEngine.MatchesAt | src/scripts/config.py:136 | the pattern matches at a position: `Cheat Engine ` starts there and a digit follows it |
| CheatEngine.LeftmostMatch | src/scripts/config.py:136 | `re.search` finds a match iff the pattern matches at some position, and then at the leftmost such position |
| CheatEngine.SearchVersion | src/scripts/config.py:136-137 | a capture, when there is one, is made of dot-separated non-empty digit groups |
| CheatEngine.SearchFindsAnyMatch | src/scripts/config.py:136-137 | the search yields a capture iff `Cheat Engine ` followed by a digit occurs in the name |
| CheatEngine.Split | src/scripts/config.py:139 | `str.split` yields at least one piece |
| CheatEngine.SplitPiecesLackSeparator | src/scripts/config.py:139 | no piece of the split contains the separator |
| CheatEngine.JoinSplit | src/scripts/config.py:139 | joining the pieces with the separator gives back the split string |
| CheatEngine.SplitAround | src/scripts/config.py:139 | splitting around one separator splits each side independently |
| CheatEngine.SplitWithoutSeparator | src/scripts/config.py:139 | a text without the separator splits into itself |
| CheatEngine.GroupsWellFormed | src/scripts/config.py:136-139 | every group the greedy repetition adds is a non-empty run of digits |
| CheatEngine.DecimalValue | src/scripts/config.py:139 | `int` of a group of decimal digits, read most significant digit first |
| CheatEngine.DecimalRoundTrip | src/scripts/config.py:139 | `int` inverts the decimal representation: the digits of any natural number, without leading zeros, read back as that number |
| CheatEngine.LeadingZeroIgnored | src/scripts/config.py:139 | `int` ignores a leading zero (`07` and `7` are the same component) |
| CheatEngine.Components | src/scripts/config.py:139 | one non-negative integer per dot-separated group, each group non-empty, so `int` never fails on a match |
| CheatEngine.Padded | src/scripts/config.py:140-141 | length is the greater of 3 and the original length, the original list is a prefix, every added component is 0 |
| CheatEngine.PadVersion | src/scripts/config.py:140-141 | the `while`/`append` loop computes exactly `Padded` |
| CheatEngine.Less | src/scripts/config.py:142 | Python's order on integer lists: the first differing component decides, and a proper prefix is smaller |
| CheatEngine.LessIrreflexive | src/scripts/config.py:142 | no list is greater than itself under Python's list order |
| CheatEngine.LessTransitive | src/scripts/config.py:142 | Python's list order is transitive |
| CheatEngine.LessTotal | src/scripts/config.py:142 | any two lists are equal or one is smaller |
| CheatEngine.LessAsymmetric | src/scripts/config.py:142 | a smaller list is not also greater |
| CheatEngine.CandidateVersion | src/scripts/config.py:135-141 | a version a folder yields has at least three components |
| CheatEngine.CandidateIff | src/scripts/config.py:135-137 | a folder yields a version iff it starts with `Cheat Engine` and the pattern matches somewhere in it |
| CheatEngine.LatestIsUnique | src/scripts/config.py:142-144 | at most one entry of a version list, and so at most one folder of a listing, is the earliest with the greatest version |
| CheatEngine.BelowRunningMaximum | src/scripts/config.py:142 | a version not above the running maximum is strictly below a version that beats it |
| CheatEngine.LatestMovesTo | src/scripts/config.py:142-144 | a folder that beats the running maximum, or the first candidate, becomes the latest |
| CheatEngine.LatestStays | src/scripts/config.py:135-144 | a folder that is no candidate or does not beat the maximum keeps the latest where it is |
| CheatEngine.FindCEInstallPath | src/scripts/config.py:128-146 | `None` iff the base path is missing or no folder is a candidate; otherwise the path under `C:\Program Files` of a candidate whose version no candidate exceeds and that every earlier candidate falls strictly short of |
| CheatEngineExample.ExampleCandidates | src/scripts/config.py:135-141 | the folders `Cheat Engine 7.4`, `Cheat Engine 7.5.1` and `Cheat Engine 6.8` yield `[7, 4, 0]`, `[7, 5, 1]` and `[6, 8, 0]` |
| CheatEngineExample.ExampleListingPicks751 | src/scripts/config.py:128-146 | in the listing 7.4, 7.5.1, 6.8 the second folder is the latest |
| CheatEngineExample.ExamplePath | src/scripts/config.py:144 | the joined path of that folder is `C:\Program Files\Cheat Engine 7.5.1` |
| Settings.DefaultDownloadPath | src/scripts/config.py:50 | the default download directory lies under `APPDATA` and ends in `GCM Trainers` |
| Settings.WeModInstallPath | src/scripts/config.py:159 | the default WeMod path lies under `LOCALAPPDATA` and ends in `WeMod` |
| Settings.EnvironmentDefaults | src/scripts/config.py:50-65 | the four defaults taken from the environment: `downloadPath`, `language`, `weModPath` and `cePath` |
| Settings.DefaultSettings | src/scripts/config.py:49-66 | the defaults have exactly the fourteen keys |
| Settings.DefaultValues | src/scripts/config.py:49-66 | the defaults hold the default download path, the resolved language, the WeMod path under `LOCALAPPDATA`, and the Cheat Engine path found, stored as `null` when there is none |
| Settings.DefaultLanguageIsSupported | src/scripts/config.py:47-51 | the language the defaults hold is always a supported one |
| Settings.WithDefaults | src/scripts/config.py:75-76 | the merged keys are the loaded keys together with the default keys |
| Settings.MergeDefaults | src/scripts/config.py:75-76 | after the `setdefault` loop every default key is present, loaded values are kept, unknown keys survive and missing keys take their defaults |
| Settings.MergeKeepsCompleteRecord | src/scripts/config.py:75-76 | a record that already has every default key is not changed by the merge |
| Settings.MergeIsIdempotent | src/scripts/config.py:75-76 | merging twice against the same defaults is merging once |
| Settings.LoadedSettings | src/scripts/config.py:68-76 | a failed read gives exactly the defaults; a JSON object keeps all its keys and values, gains exactly the default keys it lacks, each with its default value, and nothing else; any other JSON value makes `setdefault` raise |
| Settings.LoadIsIdempotent | src/scripts/config.py:68-81 | loading the file the previous load wrote gives the same record |
| Settings.SaveThenLoad | src/scripts/config.py:29-31 | a saved record with every default key is exactly what the next load returns |
| Settings.Config.Apply | src/scripts/config.py:29-31 | the file afterwards holds the given record; the in-memory settings are unchanged |
| Settings.Config.Load | src/scripts/config.py:34-81 | on success the settings become the loaded record and the file holds it; on a non-object file nothing changes and the error is returned |
| Settings.CreatesDownloadDirectory | src/scripts/config.py:120-121 | the first `os.makedirs` in the `try` succeeds: `downloadPath` is present, is a string, and the oracle creates it |
| Settings.Config.EnsureDownloadPathIsValid | src/scripts/config.py:119-125 | a first creation that succeeds changes nothing; otherwise only `downloadPath` changes, to the default under `APPDATA`, the file is written before the single retry, and the retry's failure is returned; a synced state stays synced |
| Theme.ReplaceBackslashes | src/scripts/config.py:169 | same length, every backslash becomes a slash, every other character is kept |
| Theme.NoBackslashRemains | src/scripts/config.py:169 | a normalised path holds no backslash |
| Theme.ReplaceIsIdempotent | src/scripts/config.py:169 | normalising twice is normalising once |
| Theme.ReplaceKeepsForwardPaths | src/scripts/config.py:169 | a path without backslashes is left untouched |
| Theme.DropdownArrowAsset | src/scripts/config.py:168-171 | `black` selects `dropdown-white.png`, `white` selects `dropdown-black.png`, any other value leaves the arrow unset |
| Theme.DropdownArrowPath | src/scripts/config.py:168-171 | the arrow path is set iff the theme is known, holds no backslash and is as long as the resolved resource path |
| Theme.ArrowPaths | src/scripts/config.py:172-175 | the four arrow paths, up, down, left and right in that order, each keep the length of their resolved asset and every character of it except a backslash, which none of them holds |
| Theme.ThemeIsPresentAfterLoad | src/scripts/config.py:168 | after a successful load the `theme` key the branch reads is present |
| Bootstrap.Start | src/scripts/config.py:159-171 | the scanned Cheat Engine path is `None` iff the listing is missing or has no candidate, and otherwise the latest folder's path; a non-object settings file fails with nothing changed and no arrow; otherwise the settings become the merged record, with `downloadPath` reset to the default under `APPDATA` exactly when the first creation fails, the file holds them, and the outcome is the retry's; on success every default key is present, the download directory is created, and the arrow path is the one the loaded theme selects, without backslashes |

## Left out

- `resource_path` (bundle root versus source tree, the existence check and its translated error): packaging and file-system state; it is a function parameter wherever a resource is resolved.
- JSON serialisation: `json.load`/`json.dump` and the file writes are replaced by the parsed value; that dumping and re-reading a record gives it back is assumed, not modelled. JSON numbers are reals; `NaN`, `Infinity` and the int-versus-float distinction are not modelled.
- `get_translator`: gettext, `.po` to `.mo` compilation with polib, and the translated `theme_options`/`server_options` tables, whose keys depend on the translator.
- The message printed when reading `settings.json` fails: console output, not part of the state.
- `pinyin.get`: a foreign library, passed in as the function `transliterate`.
- `locale.setlocale`, `os.environ`, `tempfile.gettempdir`, `os.listdir`, `os.path.exists`, `os.makedirs` of the settings and database directories, `shutil.copyfile` in `ensure_trainer_details_exist`, and the three temporary directory paths: operating-system calls, replaced by parameters or left out.
- CheatEngine.IsDigit: Python's `\d` also matches non-ASCII decimal digits (and `int` accepts them); the model matches ASCII digits only.
- Paths.JoinPath: covers a relative second argument without a drive, which is every use here; `ntpath.join` with an absolute or drive-qualified second argument is not modelled.
- Settings.Config.EnsureDownloadPathIsValid: `os.makedirs` is a deterministic oracle of the path, so a retry on the same path cannot succeed where the first attempt failed.
- Python strings may hold lone surrogates, which Dafny's `char` excludes; they never fall in U+4E00..U+9FFF.
- The rest of the import-time sequence (translation loading, copying `xgqdetail.json`, the dependency paths of lines 176-181).
