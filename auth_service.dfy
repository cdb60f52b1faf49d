/** `AuthService`: the session state the rest of the client reads (the
    current user, published both as a signal and as a subject, and an
    "authenticated" subject) and the operations that change it: login and
    registration, renewal with the refresh token, fetching the current
    user, and logout. The server's answer to each call is a parameter. */
module Auth {
  import opened Wrappers
  import opened Models
  import opened Platform
  import TokenClock
  import opened TokenStore

  const LOGIN_PATH := "/auth/login"
  const ADMIN_ROLE := "Admin"

  /** Why a renewal failed: no refresh token was stored (no request is
      made), or the server rejected the request. */
  datatype RefreshError = NoRefreshToken | RefreshRejected(error: HttpError)

  /** The storage after the three credential slots are written, as the
      token setters write them. */
  function WithCredentials(items: map<string, string>, browser: bool, response: AuthResponse): map<string, string> {
    if browser
    then items[ACCESS_TOKEN_KEY := response.accessToken][REFRESH_TOKEN_KEY := response.refreshToken][EXPIRES_AT_KEY := response.expiresAt]
    else items
  }

  /** The storage after `clearTokens`. */
  function WithoutCredentials(items: map<string, string>, browser: bool): map<string, string> {
    if browser then items - {ACCESS_TOKEN_KEY, REFRESH_TOKEN_KEY, EXPIRES_AT_KEY} else items
  }

  class AuthService {
    const tokens: TokenService
    const router: Router
    var currentUserSignal: Option<User>
    var currentUserSubject: Option<User>
    var isAuthenticatedSubject: bool

    /** The user signal and the user subject publish the same value. */
    predicate Valid()
      reads this
    {
      currentUserSignal == currentUserSubject
    }

    /** The service before its start-up check: no user, not authenticated.
        The check itself is `CheckAuthStatus`, run once the server answers. */
    constructor (tokens: TokenService, router: Router)
      ensures this.tokens == tokens && this.router == router
      ensures Valid() && currentUserSignal.None? && !isAuthenticatedSubject
    {
      this.tokens := tokens;
      this.router := router;
      currentUserSignal := None;
      currentUserSubject := None;
      isAuthenticatedSubject := false;
    }

    /** Stores the credential triple, publishes the user, marks the session authenticated. */
    method HandleAuthSuccess(response: AuthResponse)
      modifies this, tokens.storage
      ensures Valid() && currentUserSignal == Some(response.user) && isAuthenticatedSubject
      ensures tokens.storage.items == WithCredentials(old(tokens.storage.items), tokens.browser, response)
    {
      tokens.SetAccessToken(response.accessToken);
      tokens.SetRefreshToken(response.refreshToken);
      tokens.SetExpiresAt(response.expiresAt);
      currentUserSignal := Some(response.user);
      currentUserSubject := Some(response.user);
      isAuthenticatedSubject := true;
    }

    /** `login`: on success the session is established; an error is
        passed on and nothing changes. */
    method Login(outcome: Result<AuthResponse, HttpError>) returns (r: Result<AuthResponse, HttpError>)
      requires Valid()
      modifies this, tokens.storage
      ensures r == outcome && Valid()
      ensures outcome.Ok? ==> currentUserSignal == Some(outcome.value.user) && isAuthenticatedSubject
      ensures outcome.Ok? ==> tokens.storage.items == WithCredentials(old(tokens.storage.items), tokens.browser, outcome.value)
      ensures outcome.Err? ==> unchanged(this, tokens.storage)
    {
      if outcome.Ok? {
        HandleAuthSuccess(outcome.value);
      }
      r := outcome;
    }

    /** `register`: the same handling as `login`, for the registration call. */
    method Register(outcome: Result<AuthResponse, HttpError>) returns (r: Result<AuthResponse, HttpError>)
      requires Valid()
      modifies this, tokens.storage
      ensures r == outcome && Valid()
      ensures outcome.Ok? ==> currentUserSignal == Some(outcome.value.user) && isAuthenticatedSubject
      ensures outcome.Ok? ==> tokens.storage.items == WithCredentials(old(tokens.storage.items), tokens.browser, outcome.value)
      ensures outcome.Err? ==> unchanged(this, tokens.storage)
    {
      if outcome.Ok? {
        HandleAuthSuccess(outcome.value);
      }
      r := outcome;
    }

    /** `logout`: clears the three slots, the user and the authenticated
        flag, and asks for the login page. The resulting state does not
        depend on the state before, so a second call changes nothing but
        the navigation log. */
    method Logout()
      modifies this, tokens.storage, router
      ensures Valid() && currentUserSignal.None? && !isAuthenticatedSubject
      ensures tokens.storage.items == WithoutCredentials(old(tokens.storage.items), tokens.browser)
      ensures tokens.GetAccessToken().None? && tokens.GetRefreshToken().None? && tokens.GetExpiresAt().None?
      ensures router.history == old(router.history) + [Navigation(LOGIN_PATH, None)]
    {
      tokens.ClearTokens();
      currentUserSignal := None;
      currentUserSubject := None;
      isAuthenticatedSubject := false;
      router.Navigate(Navigation(LOGIN_PATH, None));
    }

    /** The body of the renewal request (lines 89-94 of `refreshToken`):
        the stored refresh token, or the immediate failure when there is
        none, in which case no request is made and nothing is cleared. */
    function RefreshRequest(): (r: Result<string, RefreshError>)
      reads this, tokens, tokens.storage
      ensures r.Err? <==> !TokenClock.Present(tokens.GetRefreshToken())
      ensures r.Err? ==> r.error == NoRefreshToken
      ensures r.Ok? ==> tokens.GetRefreshToken() == Some(r.value) && r.value != ""
    {
      var stored := tokens.GetRefreshToken();
      if stored.None? || stored.value == "" then Err(NoRefreshToken) else Ok(stored.value)
    }

    /** The handling of the renewal answer (lines 96-108 of `refreshToken`):
        success overwrites the triple and the user but leaves the
        authenticated subject alone; failure logs out and passes the
        server's error on. */
    method ApplyRefreshResponse(outcome: Result<AuthResponse, HttpError>) returns (r: Result<AuthResponse, RefreshError>)
      modifies this, tokens.storage, router
      ensures Valid()
      ensures outcome.Ok? ==> r == Ok(outcome.value) && currentUserSignal == Some(outcome.value.user)
      ensures outcome.Ok? ==> isAuthenticatedSubject == old(isAuthenticatedSubject)
      ensures outcome.Ok? ==> tokens.storage.items == WithCredentials(old(tokens.storage.items), tokens.browser, outcome.value)
      ensures outcome.Ok? ==> router.history == old(router.history)
      ensures outcome.Err? ==> r == Err(RefreshRejected(outcome.error))
      ensures outcome.Err? ==> currentUserSignal.None? && !isAuthenticatedSubject
      ensures outcome.Err? ==> tokens.storage.items == WithoutCredentials(old(tokens.storage.items), tokens.browser)
      ensures outcome.Err? ==> router.history == old(router.history) + [Navigation(LOGIN_PATH, None)]
    {
      match outcome
      case Ok(response) =>
        tokens.SetAccessToken(response.accessToken);
        tokens.SetRefreshToken(response.refreshToken);
        tokens.SetExpiresAt(response.expiresAt);
        currentUserSignal := Some(response.user);
        currentUserSubject := Some(response.user);
        r := Ok(response);
      case Err(e) =>
        Logout();
        r := Err(RefreshRejected(e));
    }

    /** `refreshToken` when its request completes without anything else
        happening in between: the immediate failure without a refresh
        token (nothing changes), else the handling of `outcome`. */
    method RefreshToken(outcome: Result<AuthResponse, HttpError>) returns (r: Result<AuthResponse, RefreshError>)
      modifies this, tokens.storage, router
      ensures old(RefreshRequest()).Err? ==> r == Err(NoRefreshToken)
      ensures old(RefreshRequest()).Err? ==> unchanged(this, tokens.storage, router)
      ensures old(RefreshRequest()).Ok? ==> Valid()
      ensures old(RefreshRequest()).Ok? && outcome.Ok? ==> r == Ok(outcome.value) && currentUserSignal == Some(outcome.value.user)
      ensures old(RefreshRequest()).Ok? && outcome.Ok? ==>
                tokens.storage.items == WithCredentials(old(tokens.storage.items), tokens.browser, outcome.value)
      ensures old(RefreshRequest()).Ok? && outcome.Err? ==>
                r == Err(RefreshRejected(outcome.error)) && currentUserSignal.None? && !isAuthenticatedSubject
      ensures old(RefreshRequest()).Ok? && outcome.Err? ==>
                tokens.storage.items == WithoutCredentials(old(tokens.storage.items), tokens.browser)
      ensures old(RefreshRequest()).Ok? && outcome.Ok? ==> router.history == old(router.history)
      ensures old(RefreshRequest()).Ok? && outcome.Ok? ==> isAuthenticatedSubject == old(isAuthenticatedSubject)
      ensures old(RefreshRequest()).Ok? && outcome.Err? ==>
                router.history == old(router.history) + [Navigation(LOGIN_PATH, None)]
    {
      var request := RefreshRequest();
      if request.Err? {
        r := Err(request.error);
      } else {
        r := ApplyRefreshResponse(outcome);
      }
    }

    /** `getCurrentUser`: success publishes the user and marks the session
        authenticated; failure logs out and passes the error on. */
    method GetCurrentUser(outcome: Result<User, HttpError>) returns (r: Result<User, HttpError>)
      modifies this, tokens.storage, router
      ensures r == outcome && Valid()
      ensures outcome.Ok? ==> currentUserSignal == Some(outcome.value) && isAuthenticatedSubject
      ensures outcome.Ok? ==> unchanged(tokens.storage, router)
      ensures outcome.Err? ==> currentUserSignal.None? && !isAuthenticatedSubject
      ensures outcome.Err? ==> tokens.storage.items == WithoutCredentials(old(tokens.storage.items), tokens.browser)
      ensures outcome.Err? ==> router.history == old(router.history) + [Navigation(LOGIN_PATH, None)]
    {
      r := outcome;
      match outcome
      case Ok(user) =>
        currentUserSignal := Some(user);
        currentUserSubject := Some(user);
        isAuthenticatedSubject := true;
      case Err(_) =>
        Logout();
    }

    /** `checkAuthStatus`, run at start-up: with a valid stored token the
        current user is fetched (success publishes it, failure logs out,
        once in `getCurrentUser` and once more in the subscriber); without
        one nothing happens. */
    method CheckAuthStatus(decode: TokenClock.Decoder, now: real, outcome: Result<User, HttpError>)
      modifies this, tokens.storage, router
      ensures !old(IsAuthenticated(decode, now)) ==> unchanged(this, tokens.storage, router)
      ensures old(IsAuthenticated(decode, now)) ==> Valid()
      ensures old(IsAuthenticated(decode, now)) && outcome.Ok? ==>
                currentUserSignal == Some(outcome.value) && isAuthenticatedSubject && unchanged(tokens.storage, router)
      ensures old(IsAuthenticated(decode, now)) && outcome.Err? ==>
                currentUserSignal.None? && !isAuthenticatedSubject
                && tokens.storage.items == WithoutCredentials(old(tokens.storage.items), tokens.browser)
                && router.history == old(router.history) + [Navigation(LOGIN_PATH, None), Navigation(LOGIN_PATH, None)]
    {
      var token := tokens.GetAccessToken();
      if TokenClock.Present(token) && tokens.IsTokenValid(decode, now) {
        var r := GetCurrentUser(outcome);
        if r.Ok? {
          currentUserSignal := Some(r.value);
          currentUserSubject := Some(r.value);
          isAuthenticatedSubject := true;
        } else {
          Logout();
        }
      }
    }

    /** `isAuthenticated`: the stored access token is valid now, whatever
        the user fields say. */
    function IsAuthenticated(decode: TokenClock.Decoder, now: real): (b: bool)
      reads this, tokens, tokens.storage
      ensures b == TokenClock.IsTokenValid(tokens.GetAccessToken(), decode, now)
    {
      tokens.IsTokenValid(decode, now)
    }

    /** `getCurrentUserValue`: the subject's value, which is the user the
        signal publishes. */
    function GetCurrentUserValue(): (u: Option<User>)
      reads this
      ensures Valid() ==> u == currentUserSignal
    {
      currentUserSubject
    }

    /** `hasRole`: a user is present and has exactly that role. */
    function HasRole(role: string): (b: bool)
      reads this
      ensures currentUserSignal.None? ==> !b
      ensures currentUserSignal.Some? ==> (b <==> currentUserSignal.value.role == role)
    {
      currentUserSignal.Some? && currentUserSignal.value.role == role
    }

    /** `isAdminUser`, the method form. */
    function IsAdminUser(): (b: bool)
      reads this
      ensures b <==> currentUserSignal.Some? && currentUserSignal.value.role == ADMIN_ROLE
    {
      HasRole(ADMIN_ROLE)
    }

    /** The computed `isAdmin` signal, written independently of `hasRole`;
        it agrees with `isAdminUser`. */
    function IsAdmin(): (b: bool)
      reads this
      ensures b == IsAdminUser()
      ensures b ==> currentUserSignal.Some?
    {
      match currentUserSignal
      case None => false
      case Some(u) => u.role == ADMIN_ROLE
    }
  }
}
