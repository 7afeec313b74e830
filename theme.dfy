/** Theme-dependent asset selection and the separator normalisation applied to asset paths. */
module Theme {
  import opened Wrappers
  import Settings

  /** `.replace("\\", "/")`: every backslash becomes a forward slash, nothing else changes. */
  function ReplaceBackslashes(s: string): (r: string)
    ensures |r| == |s|
    ensures forall i | 0 <= i < |s| :: r[i] == (if s[i] == '\\' then '/' else s[i])
  {
    if s == [] then [] else [if s[0] == '\\' then '/' else s[0]] + ReplaceBackslashes(s[1..])
  }

  /** A normalised path holds no backslash. */
  lemma NoBackslashRemains(s: string)
    ensures '\\' !in ReplaceBackslashes(s)
  {
  }

  /** Normalising twice is normalising once. */
  lemma ReplaceIsIdempotent(s: string)
    ensures ReplaceBackslashes(ReplaceBackslashes(s)) == ReplaceBackslashes(s)
  {
  }

  /** A path without backslashes is left untouched. */
  lemma ReplaceKeepsForwardPaths(s: string)
    requires '\\' !in s
    ensures ReplaceBackslashes(s) == s
  {
  }

  /**
   * The theme branch: the dark theme gets the white arrow and the light theme the
   * black one; any other value of `settings["theme"]` leaves the arrow unset.
   */
  function DropdownArrowAsset(theme: Settings.Value): (asset: Option<string>)
    ensures theme == Settings.Str("black") ==> asset == Some("assets/dropdown-white.png")
    ensures theme == Settings.Str("white") ==> asset == Some("assets/dropdown-black.png")
    ensures asset.None? <==> theme != Settings.Str("black") && theme != Settings.Str("white")
  {
    if theme == Settings.Str("black") then Some("assets/dropdown-white.png")
    else if theme == Settings.Str("white") then Some("assets/dropdown-black.png")
    else None
  }

  /**
   * `dropDownArrow_path`, with `resource_path` passed in as `resourcePath`: the
   * resolved asset with separators normalised, or `None` for an unknown theme.
   */
  function DropdownArrowPath(theme: Settings.Value, resourcePath: string -> string): (path: Option<string>)
    ensures path.None? <==> DropdownArrowAsset(theme).None?
    ensures path.Some? ==> '\\' !in path.value && |path.value| == |resourcePath(DropdownArrowAsset(theme).value)|
  {
    match DropdownArrowAsset(theme)
    case Some(asset) =>
      NoBackslashRemains(resourcePath(asset));
      Some(ReplaceBackslashes(resourcePath(asset)))
    case None => None
  }

  /** The bundled assets of the four scroll arrows: up, down, left, right. */
  const ArrowAssets: seq<string> := ["assets/up.png", "assets/down.png", "assets/left.png", "assets/right.png"]

  /**
   * `upArrow_path`, `downArrow_path`, `leftArrow_path` and `rightArrow_path`, in
   * that order: each is its resolved asset with every backslash turned into a slash.
   */
  function ArrowPaths(resourcePath: string -> string): (paths: seq<string>)
    ensures |paths| == |ArrowAssets| == 4
    ensures forall i | 0 <= i < 4 :: '\\' !in paths[i]
    ensures forall i | 0 <= i < 4 :: |paths[i]| == |resourcePath(ArrowAssets[i])|
    ensures forall i, j | 0 <= i < 4 && 0 <= j < |paths[i]| ::
      resourcePath(ArrowAssets[i])[j] != '\\' ==> paths[i][j] == resourcePath(ArrowAssets[i])[j]
  {
    var assets := ArrowAssets;
    forall i | 0 <= i < 4 ensures '\\' !in ReplaceBackslashes(resourcePath(assets[i])) {
      NoBackslashRemains(resourcePath(assets[i]));
    }
    seq(4, i requires 0 <= i < 4 => ReplaceBackslashes(resourcePath(assets[i])))
  }

  /** After a load the theme key is present, so the branch always has a value to test. */
  lemma ThemeIsPresentAfterLoad(read: Option<Settings.Value>, defaults: Settings.Record)
    requires defaults.Keys == Settings.DefaultKeys
    requires Settings.LoadedSettings(read, defaults).Success?
    ensures "theme" in Settings.LoadedSettings(read, defaults).value
  {
  }
}
