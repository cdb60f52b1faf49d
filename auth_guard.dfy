/** The three route guards: `authGuard` for signed-in pages, `adminGuard`
    for administration pages and `publicGuard` for the login and
    registration pages. Each decision is a function of what `AuthService`
    reports; the guard's navigation is its only side output. */
module Guards {
  import opened Wrappers
  import opened Models
  import opened Platform
  import TokenClock
  import opened Auth

  const BOARDS_PATH := "/boards"

  /** Whether the route may be entered, whether the guard asked the server
      for the current user, and the navigations the guard itself asked for. */
  datatype Decision = Decision(allow: bool, calledBackend: bool, navigations: seq<Navigation>)

  /** The redirect to the login page that remembers where the user was going. */
  function LoginRedirect(url: string): Navigation {
    Navigation(LOGIN_PATH, Some(url))
  }

  /** `authGuard`: without a valid token, redirect to login with the
      requested URL; with a user in memory, allow at once; otherwise ask
      the server (`backendOk` is its answer) and allow iff it knows the
      user, redirecting to login as above when it does not. */
  function AuthGuard(authenticated: bool, currentUser: Option<User>, url: string, backendOk: bool): (d: Decision)
    ensures d.allow <==> authenticated && (currentUser.Some? || backendOk)
    ensures d.calledBackend <==> authenticated && currentUser.None?
    ensures d.allow ==> d.navigations == []
    ensures !d.allow ==> d.navigations == [LoginRedirect(url)]
  {
    if !authenticated then Decision(false, false, [LoginRedirect(url)])
    else if currentUser.Some? then Decision(true, false, [])
    else if backendOk then Decision(true, true, [])
    else Decision(false, true, [LoginRedirect(url)])
  }

  /** `adminGuard`: allow iff the token is valid and the user in memory is
      an administrator; otherwise go to the boards page. */
  function AdminGuard(authenticated: bool, currentUser: Option<User>): (d: Decision)
    ensures d.allow <==> authenticated && currentUser.Some? && currentUser.value.role == ADMIN_ROLE
    ensures !d.calledBackend
    ensures d.navigations == if d.allow then [] else [Navigation(BOARDS_PATH, None)]
  {
    if authenticated && currentUser.Some? && currentUser.value.role == ADMIN_ROLE then Decision(true, false, [])
    else Decision(false, false, [Navigation(BOARDS_PATH, None)])
  }

  /** `publicGuard`: allow exactly the visitors without a valid token;
      signed-in users go to the boards page. */
  function PublicGuard(authenticated: bool): (d: Decision)
    ensures d.allow == !authenticated && !d.calledBackend
    ensures d.navigations == if authenticated then [Navigation(BOARDS_PATH, None)] else []
  {
    if authenticated then Decision(false, false, [Navigation(BOARDS_PATH, None)]) else Decision(true, false, [])
  }

  /** A page `publicGuard` admits is never one `authGuard` admits, and the
      other way round, whatever the server says. */
  lemma PublicAndAuthExclusive(authenticated: bool, currentUser: Option<User>, url: string, backendOk: bool)
    ensures !(PublicGuard(authenticated).allow && AuthGuard(authenticated, currentUser, url, backendOk).allow)
    ensures !authenticated ==> PublicGuard(authenticated).allow && !AuthGuard(authenticated, currentUser, url, backendOk).allow
  {
  }

  /** Whoever passes `adminGuard` passes `authGuard` too, without a call
      to the server. */
  lemma AdminPassesAuthGuard(authenticated: bool, currentUser: Option<User>, url: string, backendOk: bool)
    requires AdminGuard(authenticated, currentUser).allow
    ensures AuthGuard(authenticated, currentUser, url, backendOk).allow
    ensures !AuthGuard(authenticated, currentUser, url, backendOk).calledBackend
  {
  }

  /** `authGuard` run against the service: the server is asked only when
      the token is valid and no user is in memory, and then
      `getCurrentUser` publishes the user or logs out (its own navigation
      to login comes before the guard's). */
  method RunAuthGuard(auth: AuthService, decode: TokenClock.Decoder, now: real, url: string,
                      outcome: Result<User, HttpError>) returns (allow: bool)
    requires auth.Valid()
    modifies auth, auth.tokens.storage, auth.router
    ensures auth.Valid()
    ensures var d := AuthGuard(old(auth.IsAuthenticated(decode, now)), old(auth.currentUserSignal), url, outcome.Ok?);
      && allow == d.allow
      && (!d.calledBackend ==> unchanged(auth, auth.tokens.storage) && auth.router.history == old(auth.router.history) + d.navigations)
      && (d.calledBackend && outcome.Ok? ==>
            auth.currentUserSignal == Some(outcome.value) && auth.isAuthenticatedSubject
            && unchanged(auth.tokens.storage) && auth.router.history == old(auth.router.history))
      && (d.calledBackend && outcome.Err? ==>
            auth.currentUserSignal.None? && !auth.isAuthenticatedSubject
            && auth.tokens.storage.items == WithoutCredentials(old(auth.tokens.storage.items), auth.tokens.browser)
            && auth.router.history == old(auth.router.history) + [Navigation(LOGIN_PATH, None)] + d.navigations)
  {
    if !auth.IsAuthenticated(decode, now) {
      auth.router.Navigate(LoginRedirect(url));
      return false;
    }
    if auth.currentUserSignal.Some? {
      return true;
    }
    var r := auth.GetCurrentUser(outcome);
    if r.Ok? {
      allow := true;
    } else {
      auth.router.Navigate(LoginRedirect(url));
      allow := false;
    }
  }

  /** `adminGuard` run against the service. */
  method RunAdminGuard(auth: AuthService, decode: TokenClock.Decoder, now: real) returns (allow: bool)
    modifies auth.router
    ensures var d := AdminGuard(auth.IsAuthenticated(decode, now), auth.currentUserSignal);
      allow == d.allow && auth.router.history == old(auth.router.history) + d.navigations
  {
    allow := auth.IsAuthenticated(decode, now) && auth.IsAdminUser();
    if !allow {
      auth.router.Navigate(Navigation(BOARDS_PATH, None));
    }
  }

  /** `publicGuard` run against the service. */
  method RunPublicGuard(auth: AuthService, decode: TokenClock.Decoder, now: real) returns (allow: bool)
    modifies auth.router
    ensures var d := PublicGuard(auth.IsAuthenticated(decode, now));
      allow == d.allow && auth.router.history == old(auth.router.history) + d.navigations
  {
    if auth.IsAuthenticated(decode, now) {
      auth.router.Navigate(Navigation(BOARDS_PATH, None));
      return false;
    }
    return true;
  }
}
