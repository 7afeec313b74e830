/**
 * Mapping of the operating system's locale display string to one of the
 * application's three languages, and the static per-language tables.
 */
module Locale {
  import opened Wrappers
  import opened Paths

  const English: string := "en_US"
  const SimplifiedChinese: string := "zh_CN"
  const TraditionalChinese: string := "zh_TW"

  /** The language codes the application ships catalogs and fonts for. */
  const SupportedLanguages: set<string> := {English, SimplifiedChinese, TraditionalChinese}

  /** The fixed table consulted in `load_settings`. */
  const LocaleMapping: map<string, string> := map[
    "English_United States" := English,
    "Chinese (Simplified)_China" := SimplifiedChinese,
    "Chinese (Simplified)_Hong Kong SAR" := SimplifiedChinese,
    "Chinese (Simplified)_Macao SAR" := SimplifiedChinese,
    "Chinese (Simplified)_Singapore" := SimplifiedChinese,
    "Chinese (Traditional)_Hong Kong SAR" := TraditionalChinese,
    "Chinese (Traditional)_Macao SAR" := TraditionalChinese,
    "Chinese (Traditional)_Taiwan" := TraditionalChinese
  ]

  /**
   * `locale_mapping.get(locale.getlocale()[0], 'en_US')`. The first component of
   * `getlocale()` may be `None`, which no table entry matches.
   */
  function ResolveLanguage(systemLocale: Option<string>): (code: string)
    ensures code in SupportedLanguages
    ensures systemLocale.Some? && systemLocale.value in LocaleMapping ==> code == LocaleMapping[systemLocale.value]
    ensures systemLocale.None? || systemLocale.value !in LocaleMapping ==> code == English
  {
    match systemLocale
    case Some(name) => if name in LocaleMapping then LocaleMapping[name] else English
    case None => English
  }

  /** The table is keyed by the script of the Chinese variant: the display string alone decides the code. */
  lemma ScriptDecidesLanguage(systemLocale: Option<string>)
    ensures var code := ResolveLanguage(systemLocale);
      (code == SimplifiedChinese <==>
        systemLocale.Some? && systemLocale.value in LocaleMapping && StartsWith(systemLocale.value, "Chinese (Simplified)_"))
      && (code == TraditionalChinese <==>
        systemLocale.Some? && systemLocale.value in LocaleMapping && StartsWith(systemLocale.value, "Chinese (Traditional)_"))
      && (code == English <==>
        systemLocale.None? || systemLocale.value !in LocaleMapping || systemLocale.value == "English_United States")
  {
    if systemLocale.Some? && systemLocale.value in LocaleMapping {
      var name := systemLocale.value;
      var simplified, traditional := "Chinese (Simplified)_", "Chinese (Traditional)_";
      if name == "English_United States" {
        NotPrefixAt(name, simplified, 0);
        NotPrefixAt(name, traditional, 0);
      } else if LocaleMapping[name] == SimplifiedChinese {
        assert name[..|simplified|] == simplified;
        NotPrefixAt(name, traditional, 9);
      } else {
        assert name[..|traditional|] == traditional;
        NotPrefixAt(name, simplified, 9);
      }
    }
  }

  lemma NotPrefixAt(s: string, prefix: string, i: nat)
    requires i < |prefix| && i < |s| && s[i] != prefix[i]
    ensures !StartsWith(s, prefix)
  {
  }

  /** `language_options`: the label shown in the language drop-down, mapped to its code. */
  const LanguageOptions: map<string, string> := map[
    "English (US)" := English,
    "简体中文" := SimplifiedChinese,
    "繁體中文" := TraditionalChinese
  ]

  /** The bundled font resource for each language, as named in `font_config`. */
  const FontAssets: map<string, string> := map[
    English := "assets/NotoSans-Regular.ttf",
    SimplifiedChinese := "assets/NotoSansSC-Regular.ttf",
    TraditionalChinese := "assets/NotoSansTC-Regular.ttf"
  ]

  /**
   * `font_config`, with `resource_path` passed in as `resourcePath`: every
   * language the locale table can produce, and every language the drop-down
   * offers, has a font.
   */
  function FontConfig(resourcePath: string -> string): (fonts: map<string, string>)
    ensures fonts.Keys == SupportedLanguages == LanguageOptions.Values
    ensures forall code | code in fonts :: fonts[code] == resourcePath(FontAssets[code])
  {
    assert LanguageOptions["English (US)"] == English;
    assert LanguageOptions["简体中文"] == SimplifiedChinese;
    assert LanguageOptions["繁體中文"] == TraditionalChinese;
    map code | code in FontAssets :: resourcePath(FontAssets[code])
  }

  /** Whatever the OS reports, the resolved language is one the drop-down offers and has a font. */
  lemma ResolvedLanguageHasFontAndOption(systemLocale: Option<string>, resourcePath: string -> string)
    ensures ResolveLanguage(systemLocale) in FontConfig(resourcePath)
    ensures ResolveLanguage(systemLocale) in LanguageOptions.Values
  {
  }
}
