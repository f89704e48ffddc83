/**
 * The translation service (src/js/service/translateService.js): a lookup of a
 * key in a per-language table, with fallbacks, followed by placeholder
 * substitution. The browser language is a parameter here.
 */
module TranslateService {
  import opened Placeholders

  type Table = map<string, string>

  const English: Table := map[
    "GridActionSpeak" := "Speak label",
    "GridActionSpeakCustom" := "Speak custom text",
    "GridActionNavigate" := "Navigate to other grid",
    "de" := "German",
    "en" := "English",
    "es" := "Spanish",
    "fr" := "French",
    "hi" := "Hindi",
    "id" := "Indonesian",
    "it" := "Italian",
    "ja" := "Japanese",
    "ko" := "Korean",
    "nl" := "Dutch",
    "pl" := "Polish",
    "pt" := "Portuguese",
    "ru" := "Russian",
    "zh" := "Chinese"
  ]

  const German: Table := map[
    "GridActionSpeak" := "Label aussprechen",
    "GridActionSpeakCustom" := "Benutzerdefinierten Text aussprechen",
    "GridActionNavigate" := "Zu anderem Grid navigieren",
    "de" := "Deutsch",
    "en" := "Englisch",
    "es" := "Spanisch",
    "fr" := "Französisch",
    "hi" := "Hindi",
    "id" := "Indonesisch",
    "it" := "Italienisch",
    "ja" := "Japanisch",
    "ko" := "Koreanisch",
    "nl" := "Holländisch",
    "pl" := "Polnisch",
    "pt" := "Portugiesisch",
    "ru" := "Russisch",
    "zh" := "Chinesisch"
  ]

  /** `translateService.translations`, fixed at load time. */
  const Translations: map<string, Table> := map["en" := English, "de" := German]

  /** The table used for `lang`: its own one if there is one, else the English one. */
  function TableFor(lang: string): (t: Table)
    ensures lang == "de" ==> t == German
    ensures lang != "de" ==> t == English
  {
    if lang in Translations then Translations[lang] else Translations["en"]
  }

  /**
   * The untranslated template: the table entry for `key` when there is a
   * non-empty one (JavaScript truthiness), else the key itself.
   */
  function BaseString(lang: string, key: string): (r: string)
    ensures key in TableFor(lang) && TableFor(lang)[key] != "" ==> r == TableFor(lang)[key]
    ensures key !in TableFor(lang) ==> r == key
    ensures !(key in TableFor(lang) && TableFor(lang)[key] != "") ==> r == key
    ensures r != "" || key == ""
  {
    var table := TableFor(lang);
    if key in table && table[key] != "" then table[key] else key
  }

  /** `translate(key, ...args)` with the browser language `lang`. */
  function Translate(lang: string, key: string, args: seq<string>): (r: string)
    ensures args == [] ==> r == BaseString(lang, key)
    ensures NoPlaceholder(BaseString(lang, key)) ==> r == BaseString(lang, key)
  {
    var base := BaseString(lang, key);
    SubstituteWithoutPlaceholderIf(base, args);
    Substitute(base, args)
  }

  /** With clean arguments, each argument uses up one placeholder of the template until none is left. */
  lemma TranslateCount(lang: string, key: string, args: seq<string>)
    requires forall i :: 0 <= i < |args| ==> CleanArgument(args[i])
    ensures var n := Count(BaseString(lang, key));
      Count(Translate(lang, key, args)) == if |args| <= n then n - |args| else 0
  {
    SubstituteCount(BaseString(lang, key), args);
  }

  /** `SubstituteWithoutPlaceholder` under a guard, for use in an expression. */
  lemma SubstituteWithoutPlaceholderIf(s: string, args: seq<string>)
    ensures NoPlaceholder(s) ==> Substitute(s, args) == s
  {
    if NoPlaceholder(s) { SubstituteWithoutPlaceholder(s, args); }
  }

  /** `translate` as the source writes it: a loop over the extra arguments. */
  method TranslateLoop(lang: string, key: string, args: seq<string>) returns (translated: string)
    ensures translated == Translate(lang, key, args)
  {
    translated := BaseString(lang, key);
    var i := 0;
    while i < |args|
      invariant 0 <= i <= |args|
      invariant translated == Substitute(BaseString(lang, key), args[..i])
    {
      SubstituteSnoc(BaseString(lang, key), args[..i], args[i]);
      assert args[..i + 1] == args[..i] + [args[i]];
      translated := ReplaceFirst(translated, args[i]);
      i := i + 1;
    }
    assert args[..i] == args;
  }

  /** The English and German tables define the same keys. */
  lemma TablesShareKeys()
    ensures English.Keys == German.Keys
    ensures Translations.Keys == {"en", "de"}
  {
  }

  /**
   * Every listed key, in any language, translates to a non-empty table entry
   * different from the key, so it never falls back to the key.
   */
  lemma ListedKeysNeverFallBack(lang: string, key: string)
    requires key in English
    ensures key in TableFor(lang)
    ensures Translate(lang, key, []) == TableFor(lang)[key]
    ensures Translate(lang, key, []) != key
  {
    TablesShareKeys();
    var t := TableFor(lang);
    assert t[key] != "" && t[key] != key by {
      if lang == "de" { GermanEntriesDiffer(key); } else { EnglishEntriesDiffer(key); }
    }
  }

  /** No English entry is empty or equal to its key. */
  lemma EnglishEntriesDiffer(key: string)
    requires key in English
    ensures English[key] != "" && English[key] != key
  {
  }

  /** No German entry is empty or equal to its key. */
  lemma GermanEntriesDiffer(key: string)
    requires key in German
    ensures German[key] != "" && German[key] != key
  {
  }

  /** An unknown language translates exactly like English. */
  lemma UnknownLanguageFallsBackToEnglish(lang: string, key: string, args: seq<string>)
    requires lang !in Translations
    ensures Translate(lang, key, args) == Translate("en", key, args)
  {
  }
}
