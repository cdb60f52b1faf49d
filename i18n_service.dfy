/** `I18nService`: the keyed translations of the login, registration and
    layout texts, in the language `ThemeService` holds. */
module I18n {
  import opened Models
  import ThemeSettings

  /** One entry of the table: the English and the Spanish text. */
  datatype Entry = Entry(en: string, es: string) {
    function In(lang: Language): string {
      match lang
      case En => en
      case Es => es
    }
  }

  /** `t(key)`: a key missing from the table is shown as itself; a known
      key gives its text in `lang`, or the English text when that one is
      empty. */
  function Translate(table: map<string, Entry>, lang: Language, key: string): (r: string)
    ensures key !in table ==> r == key
    ensures key in table && table[key].In(lang) != "" ==> r == table[key].In(lang)
    ensures key in table && table[key].In(lang) == "" ==> r == table[key].en
  {
    if key !in table then key
    else
      var text := table[key].In(lang);
      if text != "" then text else table[key].en
  }

  /** Every text shown is non-empty when the keys are and every English
      text is: the English fallback is never itself empty. */
  lemma TranslationNeverEmpty(table: map<string, Entry>, lang: Language, key: string)
    requires key != ""
    requires forall k :: k in table ==> table[k].en != ""
    ensures Translate(table, lang, key) != ""
  {
  }

  /** In English the fallback changes nothing: the text is the table's. */
  lemma EnglishIsTheTable(table: map<string, Entry>, key: string)
    requires key in table
    ensures Translate(table, En, key) == table[key].en
  {
  }

  class I18nService {
    const theme: ThemeSettings.ThemeService
    /** `translations`: the table, given rather than spelled out. */
    const table: map<string, Entry>

    constructor (theme: ThemeSettings.ThemeService, table: map<string, Entry>)
      ensures this.theme == theme && this.table == table
    {
      this.theme := theme;
      this.table := table;
    }

    /** `t(key)` in the language of `ThemeService`, whatever language
        `TranslationService` holds. */
    function T(key: string): (r: string)
      reads theme
      ensures key !in table ==> r == key
      ensures key in table && table[key].In(theme.currentLanguage) != "" ==> r == table[key].In(theme.currentLanguage)
      ensures key in table && table[key].In(theme.currentLanguage) == "" ==> r == table[key].en
    {
      Translate(table, theme.currentLanguage, key)
    }
  }
}
