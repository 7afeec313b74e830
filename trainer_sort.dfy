/** Detection of CJK ideographs in trainer names, and the sort key derived from it. */
module TrainerSort {
  import Locale

  /** A character of the CJK Unified Ideographs block, U+4E00 to U+9FFF inclusive. */
  predicate IsCjkIdeograph(c: char) {
    '\U{4E00}' <= c <= '\U{9FFF}'
  }

  /** Reference definition: some character of `s` is a CJK ideograph. */
  predicate ContainsCjk(s: string) {
    exists i | 0 <= i < |s| :: IsCjkIdeograph(s[i])
  }

  /** `is_chinese`: scans the text and returns as soon as it meets an ideograph. */
  method IsChinese(text: string) returns (found: bool)
    ensures found <==> ContainsCjk(text)
    ensures text == [] ==> !found
  {
    for i := 0 to |text|
      invariant forall j | 0 <= j < i :: !IsCjkIdeograph(text[j])
    {
      if IsCjkIdeograph(text[i]) {
        return true;
      }
    }
    return false;
  }

  /**
   * `sort_trainers_key`: a name with an ideograph is replaced by its phonetic
   * transliteration, which the `pinyin` library computes and is passed in here
   * as `transliterate`; any other name is its own key.
   */
  function SortTrainersKey(name: string, transliterate: string -> string): (key: string)
    ensures ContainsCjk(name) ==> key == transliterate(name)
    ensures !ContainsCjk(name) ==> key == name
  {
    if ContainsCjk(name) then transliterate(name) else name
  }

  /** A name written below the ideograph block (Latin letters, digits, punctuation) sorts as itself. */
  lemma NamesBelowTheBlockSortAsThemselves(name: string, transliterate: string -> string)
    requires forall i | 0 <= i < |name| :: name[i] < '\U{4E00}'
    ensures SortTrainersKey(name, transliterate) == name
  {
  }

  /** Only names with an ideograph are handed to the transliteration. */
  lemma KeyDiffersOnlyForCjk(name: string, transliterate: string -> string)
    ensures SortTrainersKey(name, transliterate) != name ==> ContainsCjk(name) && transliterate(name) != name
  {
  }

  /** The two Chinese labels of the language drop-down are detected as Chinese; the English one is not. */
  lemma LanguageLabelsDetected()
    ensures forall caption | caption in Locale.LanguageOptions ::
      ContainsCjk(caption) <==> Locale.LanguageOptions[caption] != Locale.English
  {
    var simplified, traditional := "简体中文", "繁體中文";
    assert IsCjkIdeograph(simplified[0]);
    assert IsCjkIdeograph(traditional[0]);
    var english := "English (US)";
    forall i | 0 <= i < |english| ensures !IsCjkIdeograph(english[i]) {
    }
  }
}
