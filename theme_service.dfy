/** `ThemeService`: the light/dark theme and the interface language of the
    layout, chosen from what was stored, the system preference and the
    browser language, applied to the document and written back to
    `localStorage` whenever they change. Outside the browser (server-side
    rendering) nothing is read, applied or stored. */
module ThemeSettings {
  import opened Wrappers
  import opened Text
  import opened Models
  import opened Platform

  const THEME_STORAGE_KEY := "planify-theme"
  const LANG_STORAGE_KEY := "planify-language"

  /** The `theme-color` meta tag's content for each theme. */
  const DARK_META_COLOR := "#1e293b"
  const LIGHT_META_COLOR := "#ffffff"

  datatype Theme = Light | Dark {
    /** The name under which the theme is stored. */
    function Name(): string {
      match this
      case Light => "light"
      case Dark => "dark"
    }
  }

  /** `toggleTheme`'s choice: the other theme. */
  function OtherTheme(t: Theme): (r: Theme)
    ensures r != t
  {
    if t == Light then Dark else Light
  }

  /** One `localStorage.getItem` call: the stored value, or an exception
      (storage disabled, for instance). */
  datatype StorageRead = Stored(value: Option<string>) | Threw

  /** `loadThemeFromStorage`: the stored theme, only when it is exactly
      one of the two names. */
  function LoadTheme(browser: bool, read: StorageRead): (r: Option<Theme>)
    ensures r.Some? <==> browser && read.Stored? && read.value in {Some("light"), Some("dark")}
    ensures r.Some? ==> read.value == Some(r.value.Name())
  {
    if !browser || read.Threw? then None
    else if read.value == Some("light") then Some(Light)
    else if read.value == Some("dark") then Some(Dark)
    else None
  }

  /** `loadLanguageFromStorage`: the stored language, only when it is
      exactly one of the two codes. */
  function LoadLanguage(browser: bool, read: StorageRead): (r: Option<Language>)
    ensures r.Some? <==> browser && read.Stored? && read.value in {Some("en"), Some("es")}
    ensures r.Some? ==> read.value == Some(r.value.Code())
  {
    if !browser || read.Threw? then None
    else if read.value == Some("en") then Some(En)
    else if read.value == Some("es") then Some(Es)
    else None
  }

  /** What is saved is what is loaded back. */
  lemma StoredSettingsRoundTrip(t: Theme, l: Language)
    ensures LoadTheme(true, Stored(Some(t.Name()))) == Some(t)
    ensures LoadLanguage(true, Stored(Some(l.Code()))) == Some(l)
  {
  }

  /** `getSystemTheme`: dark exactly when in the browser `matchMedia`
      exists (`prefersDark` is `None` when it does not) and reports a dark
      preference. */
  function SystemTheme(browser: bool, prefersDark: Option<bool>): (r: Theme)
    ensures r == Dark <==> browser && prefersDark == Some(true)
  {
    if browser && prefersDark == Some(true) then Dark else Light
  }

  /** `getBrowserLanguage`: Spanish exactly when in the browser the part of
      `navigator.language` before the first `-` is `es`. */
  function BrowserLanguage(browser: bool, navigatorLanguage: string): (r: Language)
    ensures r == Es <==> browser && Split(navigatorLanguage, '-')[0] == "es"
  {
    if browser && Split(navigatorLanguage, '-')[0] == "es" then Es else En
  }

  /** The first piece of a split is everything before the first separator. */
  lemma FirstPiece(s: string, sep: char)
    ensures var p := Split(s, sep)[0];
      sep !in p && (s == p || (|p| < |s| && s[..|p| + 1] == p + [sep]))
  {
    var r := Split(s, sep);
    if |r| > 1 {
      assert s == r[0] + [sep] + Join(r[1..], sep);
      assert s[..|r[0]| + 1] == r[0] + [sep];
    }
  }

  /** Spanish is chosen for `es` and for every regional variant `es-…`,
      and for nothing else. */
  lemma BrowserLanguageSpanish(navigatorLanguage: string)
    ensures BrowserLanguage(true, navigatorLanguage) == Es <==>
      navigatorLanguage == "es" || StartsWith(navigatorLanguage, "es-")
  {
    var s := navigatorLanguage;
    FirstPiece(s, '-');
    if s == "es" {
      SplitWithoutSeparator(s, '-');
    } else if StartsWith(s, "es-") {
      assert s == "es" + ['-'] + s[3..];
      SplitAfterPiece("es", s[3..], '-');
    }
  }

  /** `updateMetaThemeColor`: the colour of the browser's chrome. */
  function MetaThemeColor(t: Theme): (c: string)
    ensures c == DARK_META_COLOR <==> t == Dark
    ensures c == LIGHT_META_COLOR <==> t == Light
  {
    assert DARK_META_COLOR[1] != LIGHT_META_COLOR[1];
    match t
    case Dark => DARK_META_COLOR
    case Light => LIGHT_META_COLOR
  }

  /** The media-query listener: a change of system preference is followed
      only while no valid theme is stored. */
  function AfterSystemChange(current: Theme, saved: Option<Theme>, matchesDark: bool): (r: Theme)
    ensures saved.Some? ==> r == current
    ensures saved.None? ==> (r == Dark <==> matchesDark)
  {
    if saved.None? then (if matchesDark then Dark else Light) else current
  }

  /** Once a theme has been stored, the system preference is never
      followed again. */
  lemma StoredThemeOverridesSystem(current: Theme, stored: Theme, matchesDark: bool)
    ensures AfterSystemChange(current, LoadTheme(true, Stored(Some(stored.Name()))), matchesDark) == current
  {
    StoredSettingsRoundTrip(stored, En);
  }

  class ThemeService {
    const browser: bool
    const storage: LocalStorage
    var currentTheme: Theme
    var currentLanguage: Language
    /** The theme whose class (`light-theme`/`dark-theme`) the root element carries. */
    var appliedTheme: Option<Theme>
    var metaThemeColor: Option<string>
    /** The root element's `lang` attribute. */
    var langAttribute: Option<string>

    /** In the browser the document and the storage always reflect the
        current theme and language; elsewhere nothing is applied. */
    predicate Valid()
      reads this, storage
    {
      if browser then
        && appliedTheme == Some(currentTheme)
        && metaThemeColor == Some(MetaThemeColor(currentTheme))
        && langAttribute == Some(currentLanguage.Code())
        && storage.GetItem(THEME_STORAGE_KEY) == Some(currentTheme.Name())
        && storage.GetItem(LANG_STORAGE_KEY) == Some(currentLanguage.Code())
      else
        appliedTheme.None? && metaThemeColor.None? && langAttribute.None?
    }

    /** The constructor with the first run of both effects: the stored
        choices win over the system preference and the browser language. */
    constructor (browser: bool, storage: LocalStorage, prefersDark: Option<bool>, navigatorLanguage: string)
      modifies storage
      ensures this.browser == browser && this.storage == storage && Valid()
      ensures currentTheme == LoadTheme(browser, Stored(old(storage.GetItem(THEME_STORAGE_KEY)))).GetOr(SystemTheme(browser, prefersDark))
      ensures currentLanguage == LoadLanguage(browser, Stored(old(storage.GetItem(LANG_STORAGE_KEY)))).GetOr(BrowserLanguage(browser, navigatorLanguage))
      ensures !browser ==> currentTheme == Light && currentLanguage == En && storage.items == old(storage.items)
      ensures browser ==> storage.items == old(storage.items)[THEME_STORAGE_KEY := currentTheme.Name()][LANG_STORAGE_KEY := currentLanguage.Code()]
    {
      this.browser := browser;
      this.storage := storage;
      var theme := LoadTheme(browser, Stored(storage.GetItem(THEME_STORAGE_KEY))).GetOr(SystemTheme(browser, prefersDark));
      var language := LoadLanguage(browser, Stored(storage.GetItem(LANG_STORAGE_KEY))).GetOr(BrowserLanguage(browser, navigatorLanguage));
      currentTheme := theme;
      currentLanguage := language;
      if browser {
        appliedTheme := Some(theme);
        metaThemeColor := Some(MetaThemeColor(theme));
        langAttribute := Some(language.Code());
        storage.SetItem(THEME_STORAGE_KEY, theme.Name());
        storage.SetItem(LANG_STORAGE_KEY, language.Code());
      } else {
        appliedTheme := None;
        metaThemeColor := None;
        langAttribute := None;
      }
    }

    /** `isDark`: the theme is the dark one, so exactly when it is not light. */
    predicate IsDark(): (b: bool)
      reads this
      ensures b <==> currentTheme != Light
    {
      currentTheme == Dark
    }

    /** `setTheme` followed by the theme effect. */
    method SetTheme(theme: Theme)
      requires Valid()
      modifies this, storage
      ensures Valid() && currentTheme == theme && currentLanguage == old(currentLanguage)
      ensures storage.items == if browser then old(storage.items)[THEME_STORAGE_KEY := theme.Name()] else old(storage.items)
    {
      currentTheme := theme;
      if browser {
        appliedTheme := Some(theme);
        metaThemeColor := Some(MetaThemeColor(theme));
        storage.SetItem(THEME_STORAGE_KEY, theme.Name());
      }
    }

    /** `toggleTheme`: the other theme. */
    method ToggleTheme()
      requires Valid()
      modifies this, storage
      ensures Valid() && currentTheme == OtherTheme(old(currentTheme)) && currentLanguage == old(currentLanguage)
      ensures IsDark() <==> !old(IsDark())
      ensures storage.items == if browser then old(storage.items)[THEME_STORAGE_KEY := currentTheme.Name()] else old(storage.items)
    {
      SetTheme(OtherTheme(currentTheme));
    }

    /** `setLanguage` followed by the language effect. */
    method SetLanguage(language: Language)
      requires Valid()
      modifies this, storage
      ensures Valid() && currentLanguage == language && currentTheme == old(currentTheme)
      ensures storage.items == if browser then old(storage.items)[LANG_STORAGE_KEY := language.Code()] else old(storage.items)
    {
      currentLanguage := language;
      if browser {
        langAttribute := Some(language.Code());
        storage.SetItem(LANG_STORAGE_KEY, language.Code());
      }
    }

    /** `toggleLanguage`: the other language. */
    method ToggleLanguage()
      requires Valid()
      modifies this, storage
      ensures Valid() && currentLanguage == OtherLanguage(old(currentLanguage)) && currentTheme == old(currentTheme)
      ensures storage.items == if browser then old(storage.items)[LANG_STORAGE_KEY := currentLanguage.Code()] else old(storage.items)
    {
      SetLanguage(OtherLanguage(currentLanguage));
    }

    /** The listener `watchSystemThemeChanges` registers (only in the
        browser), with the theme effect it triggers: the theme follows the
        system only when no valid theme is stored. Since the effect stores
        the theme from its first run on, from a `Valid()` state the
        listener never changes anything. */
    method SystemThemeChanged(matchesDark: bool)
      requires browser
      modifies this, storage
      ensures currentTheme == AfterSystemChange(old(currentTheme), LoadTheme(browser, Stored(old(storage.GetItem(THEME_STORAGE_KEY)))), matchesDark)
      ensures currentLanguage == old(currentLanguage)
      ensures old(Valid()) ==> Valid() && currentTheme == old(currentTheme) && storage.items == old(storage.items)
    {
      var saved := LoadTheme(browser, Stored(storage.GetItem(THEME_STORAGE_KEY)));
      if saved.None? {
        var theme := if matchesDark then Dark else Light;
        currentTheme := theme;
        appliedTheme := Some(theme);
        metaThemeColor := Some(MetaThemeColor(theme));
        storage.SetItem(THEME_STORAGE_KEY, theme.Name());
      }
    }
  }
}
