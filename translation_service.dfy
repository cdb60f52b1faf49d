/** `TranslationService`: the language of the feature pages, Spanish
    unless a valid choice was stored, persisted under its own key. It
    shares neither its state nor its key with `ThemeService`. */
module Translation {
  import opened Wrappers
  import opened Models
  import opened Platform

  const LANGUAGE_KEY := "planify_language"

  /** The language before anything is loaded. */
  const DEFAULT_LANGUAGE := Es

  /** A translation table: text keys to the strings of one language. */
  type Dictionary = map<string, string>

  /** `loadLanguage`: in the browser, a stored `es` or `en` is adopted;
      anything else keeps the default. */
  function LoadLanguage(browser: bool, saved: Option<string>): (r: Language)
    ensures r != DEFAULT_LANGUAGE <==> browser && saved == Some("en")
    ensures browser && saved.Some? && saved.value in {"en", "es"} ==> r.Code() == saved.value
  {
    if browser && saved == Some("en") then En
    else if browser && saved == Some("es") then Es
    else DEFAULT_LANGUAGE
  }

  /** Whatever `setLanguage` stored is what the next load adopts. */
  lemma LoadAfterSave(l: Language)
    ensures LoadLanguage(true, Some(l.Code())) == l
  {
    match l
    case En =>
    case Es =>
  }

  /** The theme service's language key is a different key: writing one
      never changes the other. */
  lemma SeparateLanguageKeys()
    ensures LANGUAGE_KEY != "planify-language"
  {
    assert LANGUAGE_KEY[7] == '_';
  }

  class TranslationService {
    const browser: bool
    const storage: LocalStorage
    /** `TRANSLATIONS`: the table of each language. */
    const tables: Language -> Dictionary
    var currentLanguage: Language

    /** The service as constructed: the default, or the valid stored choice. */
    constructor (browser: bool, storage: LocalStorage, tables: Language -> Dictionary)
      ensures this.browser == browser && this.storage == storage && this.tables == tables
      ensures currentLanguage == LoadLanguage(browser, storage.GetItem(LANGUAGE_KEY))
    {
      this.browser := browser;
      this.storage := storage;
      this.tables := tables;
      currentLanguage := LoadLanguage(browser, storage.GetItem(LANGUAGE_KEY));
    }

    /** `t`: the table of the current language. */
    function T(): (d: Dictionary)
      reads this
      ensures IsSpanish() ==> d == tables(Es)
      ensures IsEnglish() ==> d == tables(En)
    {
      tables(currentLanguage)
    }

    /** `isSpanish`. */
    function IsSpanish(): (b: bool)
      reads this
      ensures b <==> currentLanguage == Es
    {
      currentLanguage.Code() == "es"
    }

    /** `isEnglish`: exactly when the language is not Spanish. */
    function IsEnglish(): (b: bool)
      reads this
      ensures b != IsSpanish()
    {
      currentLanguage.Code() == "en"
    }

    /** `setLanguage`: switches, and in the browser stores the choice. */
    method SetLanguage(lang: Language)
      modifies this, storage
      ensures currentLanguage == lang && T() == tables(lang)
      ensures storage.items == if browser then old(storage.items)[LANGUAGE_KEY := lang.Code()] else old(storage.items)
    {
      currentLanguage := lang;
      if browser {
        storage.SetItem(LANGUAGE_KEY, lang.Code());
      }
    }

    /** `toggleLanguage`: the other language, through `setLanguage`. */
    method ToggleLanguage()
      modifies this, storage
      ensures currentLanguage == OtherLanguage(old(currentLanguage))
      ensures IsSpanish() == old(IsEnglish())
      ensures storage.items == if browser then old(storage.items)[LANGUAGE_KEY := currentLanguage.Code()] else old(storage.items)
    {
      SetLanguage(if currentLanguage.Code() == "es" then En else Es);
    }
  }
}
