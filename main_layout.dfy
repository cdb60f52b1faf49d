/** `MainLayout`: the shell around the signed-in pages, with the user's
    avatar initials and name, the sidebar switch, the theme and language
    switches and the logout entry. */
module Layout {
  import opened Wrappers
  import opened Text
  import opened Models
  import opened Platform
  import opened Auth
  import ThemeSettings
  import I18n

  const DEFAULT_INITIALS := "U"
  const DEFAULT_FULL_NAME := "Usuario"

  /** `getUserInitials`: the upper-cased first letters of the first and the
      last name, skipping an empty name, and `U` when there is no user or
      both names are empty. */
  function UserInitials(user: Option<User>): (r: string)
    ensures 1 <= |r| <= 2
    ensures user.None? || (user.value.firstName == "" && user.value.lastName == "") ==> r == DEFAULT_INITIALS
    ensures user.Some? && user.value.firstName != "" ==> r[0] == UpperChar(user.value.firstName[0])
    ensures user.Some? && user.value.firstName != "" && user.value.lastName != "" ==>
      r == [UpperChar(user.value.firstName[0]), UpperChar(user.value.lastName[0])]
    ensures user.Some? && user.value.firstName == "" && user.value.lastName != "" ==>
      r == [UpperChar(user.value.lastName[0])]
  {
    if user.None? then DEFAULT_INITIALS
    else
      var initials := FirstUpper(user.value.firstName) + FirstUpper(user.value.lastName);
      if initials == "" then DEFAULT_INITIALS else initials
  }

  /** `getUserFullName`: first and last name joined by a space and trimmed,
      or `Usuario` when there is no user or that is blank. */
  function UserFullName(user: Option<User>): (r: string)
    ensures r != "" && IsTrimmed(r)
    ensures user.None? ==> r == DEFAULT_FULL_NAME
    ensures user.Some? && !IsBlank(user.value.firstName + " " + user.value.lastName) ==>
      r == Trim(user.value.firstName + " " + user.value.lastName)
    ensures user.Some? && IsBlank(user.value.firstName + " " + user.value.lastName) ==> r == DEFAULT_FULL_NAME
  {
    if user.None? then DEFAULT_FULL_NAME
    else
      var name := Trim(user.value.firstName + " " + user.value.lastName);
      if name == "" then DEFAULT_FULL_NAME else name
  }

  /** For names stored without surrounding blanks, the full name is the
      two joined by one space. */
  lemma FullNameOfCleanNames(user: User)
    requires user.firstName != "" && IsTrimmed(user.firstName)
    requires user.lastName != "" && IsTrimmed(user.lastName)
    ensures UserFullName(Some(user)) == user.firstName + " " + user.lastName
  {
    var s := user.firstName + " " + user.lastName;
    assert s[0] == user.firstName[0] && s[|s| - 1] == user.lastName[|user.lastName| - 1];
    assert IsTrimmed(s);
    TrimOfTrimmed(s);
  }

  class MainLayout {
    const auth: AuthService
    const theme: ThemeSettings.ThemeService
    const i18n: I18n.I18nService
    var isSidebarOpen: bool

    constructor (auth: AuthService, theme: ThemeSettings.ThemeService, i18n: I18n.I18nService)
      ensures this.auth == auth && this.theme == theme && this.i18n == i18n && !isSidebarOpen
    {
      this.auth := auth;
      this.theme := theme;
      this.i18n := i18n;
      isSidebarOpen := false;
    }

    /** `getUserInitials` on the signed-in user. */
    function GetUserInitials(): (r: string)
      reads auth
      ensures 1 <= |r| <= 2
      ensures auth.currentUserSignal.None? ==> r == DEFAULT_INITIALS
    {
      UserInitials(auth.currentUserSignal)
    }

    /** `getUserFullName` on the signed-in user. */
    function GetUserFullName(): (r: string)
      reads auth
      ensures r != "" && IsTrimmed(r)
      ensures auth.currentUserSignal.None? ==> r == DEFAULT_FULL_NAME
    {
      UserFullName(auth.currentUserSignal)
    }

    /** `toggleSidebar`: two toggles restore the sidebar. */
    method ToggleSidebar()
      modifies this
      ensures isSidebarOpen == !old(isSidebarOpen)
    {
      isSidebarOpen := !isSidebarOpen;
    }

    /** `logout`: the service logs out (and goes to the login page), then
        the layout asks for the login page once more. */
    method Logout()
      modifies auth, auth.tokens.storage, auth.router
      ensures auth.Valid() && auth.currentUserSignal.None? && !auth.isAuthenticatedSubject
      ensures auth.tokens.storage.items == WithoutCredentials(old(auth.tokens.storage.items), auth.tokens.browser)
      ensures auth.tokens.GetAccessToken().None? && auth.tokens.GetRefreshToken().None? && auth.tokens.GetExpiresAt().None?
      ensures auth.router.history == old(auth.router.history) + [Navigation(LOGIN_PATH, None), Navigation(LOGIN_PATH, None)]
    {
      auth.Logout();
      auth.router.Navigate(Navigation(LOGIN_PATH, None));
    }

    /** `toggleTheme`, delegated to the theme service. */
    method ToggleTheme()
      requires theme.Valid()
      modifies theme, theme.storage
      ensures theme.Valid() && theme.currentTheme == ThemeSettings.OtherTheme(old(theme.currentTheme))
      ensures theme.currentLanguage == old(theme.currentLanguage)
      ensures theme.storage.items ==
        if theme.browser then old(theme.storage.items)[ThemeSettings.THEME_STORAGE_KEY := theme.currentTheme.Name()]
        else old(theme.storage.items)
    {
      theme.ToggleTheme();
    }

    /** `toggleLanguage`, delegated to the theme service: every text the
        `I18nService` gives switches to the other language. */
    method ToggleLanguage()
      requires theme.Valid() && i18n.theme == theme
      modifies theme, theme.storage
      ensures theme.Valid() && theme.currentLanguage == OtherLanguage(old(theme.currentLanguage))
      ensures theme.currentTheme == old(theme.currentTheme)
      ensures theme.storage.items ==
        if theme.browser then old(theme.storage.items)[ThemeSettings.LANG_STORAGE_KEY := theme.currentLanguage.Code()]
        else old(theme.storage.items)
      ensures forall key :: i18n.T(key) == I18n.Translate(i18n.table, OtherLanguage(old(theme.currentLanguage)), key)
    {
      theme.ToggleLanguage();
    }
  }
}
