/** The request-level half of `authInterceptor`: which requests it leaves
    alone, how it attaches the bearer token (section 2.1 of RFC 6750), and
    which errors it turns into a renewal (401 Unauthorized, section 15.5.2
    of RFC 9110). */
module HttpRequests {
  import opened Wrappers
  import opened Text
  import TokenClock

  const AUTHORIZATION := "Authorization"
  const BEARER_PREFIX := "Bearer "
  const UNAUTHORIZED := 401

  /** An outgoing request: its URL and its headers. */
  datatype Request = Request(url: string, headers: map<string, string>)

  /** The login, registration and health-check calls are never touched. */
  predicate IsExcluded(url: string): (b: bool)
    ensures b <==> exists k: nat ::
      OccursAt(url, "/auth/login", k) || OccursAt(url, "/auth/register", k) || OccursAt(url, "/health", k)
  {
    Contains(url, "/auth/login") || Contains(url, "/auth/register") || Contains(url, "/health")
  }

  /** `addTokenToRequest`: the same request with one `Authorization`
      header, `Bearer <token>`, replacing any earlier one; every other
      header is kept. */
  function AddTokenToRequest(req: Request, token: string): (r: Request)
    ensures r.url == req.url
    ensures AUTHORIZATION in r.headers && r.headers[AUTHORIZATION] == BEARER_PREFIX + token
    ensures forall h :: h != AUTHORIZATION ==> (h in r.headers <==> h in req.headers)
    ensures forall h :: h != AUTHORIZATION && h in req.headers ==> r.headers[h] == req.headers[h]
  {
    req.(headers := req.headers[AUTHORIZATION := BEARER_PREFIX + token])
  }

  /** What `authInterceptor` hands to the next handler, and whether it
      watches the response for a 401 (`guarded`). */
  datatype Dispatch = Dispatch(sent: Request, guarded: bool)

  /** `authInterceptor` on the way out, given the stored access token:
      excluded URLs and requests made without a token go out unmodified
      and unwatched; every other request (the renewal call included)
      carries the bearer token and is watched. */
  function Intercept(req: Request, storedToken: Option<string>): (d: Dispatch)
    ensures d.guarded <==> !IsExcluded(req.url) && TokenClock.Present(storedToken)
    ensures !d.guarded ==> d.sent == req
    ensures d.guarded ==> d.sent == AddTokenToRequest(req, storedToken.value)
  {
    if IsExcluded(req.url) then Dispatch(req, false)
    else if !TokenClock.Present(storedToken) then Dispatch(req, false)
    else Dispatch(AddTokenToRequest(req, storedToken.value), true)
  }

  /** What the interceptor does with an error on a watched request. */
  datatype ErrorAction = StartRenewal | Rethrow

  /** Only a 401 on a URL that is not the renewal call itself leads to a
      renewal; every other error reaches the caller unchanged. */
  function OnError(req: Request, status: int): (a: ErrorAction)
    ensures a == StartRenewal <==> status == UNAUTHORIZED && !Contains(req.url, "/auth/refresh")
  {
    if status == UNAUTHORIZED && !Contains(req.url, "/auth/refresh") then StartRenewal else Rethrow
  }
}

/** The single-flight renewal protocol of `handle401Error`, as a state
    machine over values. The module-level `isRefreshing` flag and the
    `refreshTokenSubject` value are fields of `Coordinator`; the requests
    parked on the subject are an explicit list. */
module Renewal {
  import opened Wrappers
  import opened HttpRequests

  /** `refreshing` is `isRefreshing`; `published` is the subject's current
      value; `initiator` is the request whose 401 started the renewal in
      flight; `waiters` are the requests waiting for a published token. */
  datatype Coordinator = Coordinator(
    refreshing: bool,
    published: Option<string>,
    initiator: Option<Request>,
    waiters: seq<Request>)

  /** A renewal is in flight exactly when it has an initiator, and while
      it is, the subject holds null, so a new waiter never finds a token. */
  predicate Valid(c: Coordinator) {
    && (c.refreshing <==> c.initiator.Some?)
    && (c.refreshing ==> c.published.None?)
  }

  /** The state when the application starts: not refreshing, subject null. */
  const Initial := Coordinator(false, None, None, [])

  /** What `handle401Error` does with the request that got the 401. */
  datatype Reply =
    | RefreshStarted      // this request started the one renewal and waits for it
    | Parked              // a renewal is in flight; this request waits for its token
    | RefreshUnavailable  // no refresh token: the renewal failed at once and the session ended

  /** A 401 arrives. Without a renewal in flight the flag is set, null is
      published and the renewal starts, failing at once when there is no
      refresh token (the flag is then cleared again). With one in flight
      the request joins the waiters. */
  function On401(c: Coordinator, req: Request, refreshAvailable: bool): (r: (Coordinator, Reply))
    requires Valid(c)
    ensures Valid(r.0)
    ensures r.1 == RefreshStarted <==> !c.refreshing && refreshAvailable
    ensures r.1 == Parked <==> c.refreshing
    ensures r.1 != Parked ==> r.0.published.None? && r.0.waiters == c.waiters
    ensures r.1 == RefreshStarted ==> r.0.refreshing && r.0.initiator == Some(req)
    ensures r.1 == Parked ==> r.0 == c.(waiters := c.waiters + [req])
    ensures r.1 == RefreshUnavailable ==> !r.0.refreshing
  {
    if !c.refreshing then
      if refreshAvailable then (c.(refreshing := true, published := None, initiator := Some(req)), RefreshStarted)
      else (c.(published := None), RefreshUnavailable)
    else (c.(waiters := c.waiters + [req]), Parked)
  }

  /** Each request retried with `token`, in order. */
  function WithToken(reqs: seq<Request>, token: string): (r: seq<Request>)
    ensures |r| == |reqs|
    ensures forall i :: 0 <= i < |reqs| ==> r[i] == AddTokenToRequest(reqs[i], token)
  {
    seq(|reqs|, i requires 0 <= i < |reqs| => AddTokenToRequest(reqs[i], token))
  }

  /** The renewal succeeds with a new access token: the flag is cleared,
      the token is published, every waiter resumes and is retried once
      with it (in the order the waiters arrived, because the subject
      notifies them as it publishes), and then the initiator is retried. */
  function OnRefreshSuccess(c: Coordinator, token: string): (r: (Coordinator, seq<Request>))
    requires Valid(c) && c.refreshing
    ensures Valid(r.0) && !r.0.refreshing && r.0.published == Some(token) && r.0.waiters == []
    ensures |r.1| == |c.waiters| + 1
    ensures forall i :: 0 <= i < |c.waiters| ==> r.1[i] == AddTokenToRequest(c.waiters[i], token)
    ensures r.1[|c.waiters|] == AddTokenToRequest(c.initiator.value, token)
  {
    (Coordinator(false, Some(token), None, []),
     WithToken(c.waiters, token) + [AddTokenToRequest(c.initiator.value, token)])
  }

  /** The renewal fails: the flag is cleared and the initiator gets the
      renewal's error. Nothing is published, so the waiters stay parked. */
  function OnRefreshFailure(c: Coordinator): (r: Coordinator)
    requires Valid(c) && c.refreshing
    ensures Valid(r) && !r.refreshing
    ensures r.published.None? && r.waiters == c.waiters
  {
    c.(refreshing := false, initiator := None)
  }

  /** A run of 401s, each with a refresh token available, and no renewal
      settling in between: the final state and the reply to each. */
  function Burst(c: Coordinator, reqs: seq<Request>): (r: (Coordinator, seq<Reply>))
    requires Valid(c)
    ensures Valid(r.0) && |r.1| == |reqs|
    ensures c.refreshing || |reqs| >= 1 ==> r.0.refreshing
    decreases |reqs|
  {
    if reqs == [] then (c, [])
    else
      var first := On401(c, reqs[0], true);
      var rest := Burst(first.0, reqs[1..]);
      (rest.0, [first.1] + rest.1)
  }

  /** How many replies started a renewal. */
  function Started(replies: seq<Reply>): nat {
    if replies == [] then 0
    else (if replies[0] == RefreshStarted then 1 else 0) + Started(replies[1..])
  }

  /** While a renewal is in flight, every 401 parks its request, in order,
      and none starts another renewal. */
  lemma {:induction false} BurstWhileRefreshing(c: Coordinator, reqs: seq<Request>)
    requires Valid(c) && c.refreshing
    ensures Burst(c, reqs).0 == c.(waiters := c.waiters + reqs)
    ensures forall i :: 0 <= i < |reqs| ==> Burst(c, reqs).1[i] == Parked
    ensures Started(Burst(c, reqs).1) == 0
    decreases |reqs|
  {
    if reqs == [] {
      assert c.waiters + reqs == c.waiters;
    } else {
      var c1 := c.(waiters := c.waiters + [reqs[0]]);
      BurstWhileRefreshing(c1, reqs[1..]);
      assert c1.waiters + reqs[1..] == c.waiters + reqs;
    }
  }

  /** Single flight: of any number of 401s that arrive while no renewal is
      in flight and before one settles, exactly one starts a renewal (the
      first); the others wait behind it, in order. */
  lemma SingleFlight(c: Coordinator, reqs: seq<Request>)
    requires Valid(c) && !c.refreshing && |reqs| >= 1
    ensures Started(Burst(c, reqs).1) == 1
    ensures Burst(c, reqs).1[0] == RefreshStarted
    ensures forall i :: 1 <= i < |reqs| ==> Burst(c, reqs).1[i] == Parked
    ensures Burst(c, reqs).0 == Coordinator(true, None, Some(reqs[0]), c.waiters + reqs[1..])
  {
    var c1 := c.(refreshing := true, published := None, initiator := Some(reqs[0]));
    BurstWhileRefreshing(c1, reqs[1..]);
  }

  /** When the renewal started by a burst succeeds, every request of the
      burst, and every request still parked from before, is retried
      exactly once with the new token. */
  lemma BurstThenSuccess(c: Coordinator, reqs: seq<Request>, token: string)
    requires Valid(c) && !c.refreshing && |reqs| >= 1
    ensures var settled := OnRefreshSuccess(Burst(c, reqs).0, token);
      && settled.0 == Coordinator(false, Some(token), None, [])
      && settled.1 == WithToken(c.waiters + reqs[1..], token) + [AddTokenToRequest(reqs[0], token)]
      && |settled.1| == |c.waiters| + |reqs|
      && (forall i :: 0 <= i < |reqs| ==> AddTokenToRequest(reqs[i], token) in settled.1)
      && (forall i :: 0 <= i < |c.waiters| ==> AddTokenToRequest(c.waiters[i], token) in settled.1)
  {
    SingleFlight(c, reqs);
    var settled := OnRefreshSuccess(Burst(c, reqs).0, token);
    var parked := c.waiters + reqs[1..];
    forall i | 0 <= i < |reqs| ensures AddTokenToRequest(reqs[i], token) in settled.1 {
      if i > 0 {
        assert parked[|c.waiters| + i - 1] == reqs[i];
        assert settled.1[|c.waiters| + i - 1] == AddTokenToRequest(reqs[i], token);
      } else {
        assert settled.1[|settled.1| - 1] == AddTokenToRequest(reqs[0], token);
      }
    }
    forall i | 0 <= i < |c.waiters| ensures AddTokenToRequest(c.waiters[i], token) in settled.1 {
      assert parked[i] == c.waiters[i];
      assert settled.1[i] == AddTokenToRequest(c.waiters[i], token);
    }
  }

  /** A failed renewal publishes nothing: the requests that waited on it
      stay parked through the failure and are retried, ahead of the later
      burst's own requests, only when a later renewal succeeds. */
  lemma FailedCycleWaitsForNextSuccess(c: Coordinator, reqs: seq<Request>, later: seq<Request>, token: string)
    requires Valid(c) && !c.refreshing && |reqs| >= 1 && |later| >= 1
    ensures OnRefreshFailure(Burst(c, reqs).0) == Coordinator(false, None, None, c.waiters + reqs[1..])
    ensures OnRefreshSuccess(Burst(OnRefreshFailure(Burst(c, reqs).0), later).0, token).1
            == WithToken(c.waiters + reqs[1..] + later[1..], token) + [AddTokenToRequest(later[0], token)]
  {
    SingleFlight(c, reqs);
    var failed := OnRefreshFailure(Burst(c, reqs).0);
    BurstThenSuccess(failed, later, token);
  }
}

/** `authInterceptor` with its module-level state, as an object that owns
    the renewal flag, the published token and the parked requests, and
    calls into `AuthService` for the renewal and for logout. */
module AuthInterceptor {
  import opened Wrappers
  import opened Models
  import opened Platform
  import opened HttpRequests
  import opened Renewal
  import opened Auth

  class Interceptor {
    const auth: AuthService
    var isRefreshing: bool
    var refreshTokenSubject: Option<string>
    var initiator: Option<Request>
    var waiters: seq<Request>

    /** The coordinator state these fields hold. */
    function State(): Coordinator
      reads this
    {
      Coordinator(isRefreshing, refreshTokenSubject, initiator, waiters)
    }

    predicate Valid()
      reads this
    {
      Renewal.Valid(State())
    }

    constructor (auth: AuthService)
      ensures this.auth == auth && State() == Initial && Valid()
    {
      this.auth := auth;
      isRefreshing := false;
      refreshTokenSubject := None;
      initiator := None;
      waiters := [];
    }

    /** The outgoing half: what is sent, given the stored access token. */
    method Send(req: Request) returns (d: Dispatch)
      ensures d == Intercept(req, auth.tokens.GetAccessToken())
      ensures d.guarded ==> !IsExcluded(req.url)
    {
      d := Intercept(req, auth.tokens.GetAccessToken());
    }

    /** `handle401Error` for a watched request that got a 401. */
    method Handle401(req: Request) returns (reply: Reply)
      requires Valid()
      modifies this, auth, auth.tokens.storage, auth.router
      ensures Valid()
      ensures (State(), reply) == On401(old(State()), req, old(auth.RefreshRequest()).Ok?)
      ensures reply != RefreshUnavailable ==> unchanged(auth, auth.tokens.storage, auth.router)
      ensures reply == RefreshUnavailable ==>
                && auth.Valid() && auth.currentUserSignal.None? && !auth.isAuthenticatedSubject
                && auth.tokens.storage.items == WithoutCredentials(old(auth.tokens.storage.items), auth.tokens.browser)
                && auth.router.history == old(auth.router.history) + [Navigation(LOGIN_PATH, None)]
    {
      if !isRefreshing {
        isRefreshing := true;
        refreshTokenSubject := None;
        var request := auth.RefreshRequest();
        if request.Err? {
          isRefreshing := false;
          auth.Logout();
          reply := RefreshUnavailable;
        } else {
          initiator := Some(req);
          reply := RefreshStarted;
        }
      } else {
        waiters := waiters + [req];
        reply := Parked;
      }
    }

    /** The answer to the renewal in flight. Success stores the new
        credentials (in `AuthService`), clears the flag, publishes the
        token and returns the requests to retry: the waiters, then the
        initiator. Failure logs out (in `AuthService` and again here),
        clears the flag and returns the renewal's error to the initiator;
        the waiters stay parked. */
    method OnRefreshResponse(outcome: Result<AuthResponse, HttpError>) returns (result: Result<seq<Request>, RefreshError>)
      requires Valid() && isRefreshing
      modifies this, auth, auth.tokens.storage, auth.router
      ensures Valid() && !isRefreshing && auth.Valid()
      ensures outcome.Ok? ==>
                var settled := OnRefreshSuccess(old(State()), outcome.value.accessToken);
                State() == settled.0 && result == Ok(settled.1)
      ensures outcome.Ok? ==> auth.tokens.storage.items == WithCredentials(old(auth.tokens.storage.items), auth.tokens.browser, outcome.value)
      ensures outcome.Ok? ==> auth.currentUserSignal == Some(outcome.value.user) && auth.router.history == old(auth.router.history)
      ensures outcome.Ok? ==> auth.isAuthenticatedSubject == old(auth.isAuthenticatedSubject)
      ensures outcome.Err? ==> State() == OnRefreshFailure(old(State())) && result == Err(RefreshRejected(outcome.error))
      ensures outcome.Err? ==>
                && auth.currentUserSignal.None? && !auth.isAuthenticatedSubject
                && auth.tokens.storage.items == WithoutCredentials(old(auth.tokens.storage.items), auth.tokens.browser)
                && auth.router.history == old(auth.router.history) + [Navigation(LOGIN_PATH, None), Navigation(LOGIN_PATH, None)]
    {
      var r := auth.ApplyRefreshResponse(outcome);
      match r
      case Ok(response) =>
        var token := response.accessToken;
        isRefreshing := false;
        refreshTokenSubject := Some(token);
        result := Ok(WithToken(waiters, token) + [AddTokenToRequest(initiator.value, token)]);
        initiator := None;
        waiters := [];
      case Err(e) =>
        isRefreshing := false;
        initiator := None;
        auth.Logout();
        result := Err(e);
    }

    /** An error answers the initiator's retry (a 404, a 500, another
        401). The `catchError` that follows the retry treats it like a
        failed renewal: the flag is cleared, already clear here, and the
        session logs out, so the credentials the renewal just stored are
        removed again. The error goes on to the caller. */
    method RetryFailed(error: HttpError) returns (e: HttpError)
      requires Valid() && !isRefreshing
      modifies auth, auth.tokens.storage, auth.router
      ensures e == error && Valid()
      ensures auth.Valid() && auth.currentUserSignal.None? && !auth.isAuthenticatedSubject
      ensures auth.tokens.storage.items == WithoutCredentials(old(auth.tokens.storage.items), auth.tokens.browser)
      ensures auth.router.history == old(auth.router.history) + [Navigation(LOGIN_PATH, None)]
    {
      auth.Logout();
      e := error;
    }
  }
}
