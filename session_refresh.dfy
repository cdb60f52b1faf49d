/** The proactive session-renewal monitor of `SessionRefreshService` as a
    state machine over values: the dialog flags, the one session timeout
    the service holds a handle to, the timers the browser still has
    scheduled, and the live polling subscriptions. Timers and ticks are
    events; a handle is the positive number `setTimeout` returns. */
module SessionMonitor {
  import opened Wrappers

  /** The polling period and the time the dialog waits for an answer. */
  const CHECK_INTERVAL_MS := 60000
  const SESSION_TIMEOUT_MS := 30 * 60 * 1000

  /** `sessionTimeout` is the handle the service keeps; `armed` holds the
      timers scheduled and neither fired nor cleared; `nextHandle` is the
      handle the next `setTimeout` returns; `subscriptions` counts the
      polling intervals started and not yet stopped. */
  datatype Monitor = Monitor(
    showRefreshDialog: bool,
    dialogShown: bool,
    sessionTimeout: Option<nat>,
    armed: set<nat>,
    nextHandle: nat,
    subscriptions: nat)

  /** The dialog signal and the flag agree; a timer is armed only under
      the handle the service holds; handles are positive and fresh. */
  predicate Valid(m: Monitor) {
    && m.showRefreshDialog == m.dialogShown
    && m.nextHandle >= 1
    && (forall h :: h in m.armed ==> m.sessionTimeout == Some(h))
    && (m.sessionTimeout.Some? ==> 1 <= m.sessionTimeout.value < m.nextHandle)
  }

  /** The service as constructed: no dialog, no timer, not polling. */
  const Initial := Monitor(false, false, None, {}, 1, 0)

  /** `clearSessionTimeout`: a held handle is cleared and dropped; the
      dialog and the polling are untouched. */
  function ClearSessionTimeout(m: Monitor): (r: Monitor)
    requires Valid(m)
    ensures Valid(r) && r.sessionTimeout.None? && r.armed == {}
    ensures r.(sessionTimeout := m.sessionTimeout, armed := m.armed) == m
  {
    if m.sessionTimeout.Some? then m.(armed := m.armed - {m.sessionTimeout.value}, sessionTimeout := None)
    else m
  }

  /** `startSessionTimeout`: clears the old timer, then schedules a new one
      and keeps its handle, so exactly one timer is armed afterwards. */
  function StartSessionTimeout(m: Monitor): (r: Monitor)
    requires Valid(m)
    ensures Valid(r)
    ensures r.sessionTimeout == Some(m.nextHandle) && r.armed == {m.nextHandle} && r.nextHandle == m.nextHandle + 1
    ensures r.dialogShown == m.dialogShown && r.subscriptions == m.subscriptions
  {
    var c := ClearSessionTimeout(m);
    c.(sessionTimeout := Some(c.nextHandle), armed := c.armed + {c.nextHandle}, nextHandle := c.nextHandle + 1)
  }

  /** `checkTokenExpiration`: nothing while the dialog is up; otherwise an
      expiring token raises the dialog and starts the timeout. */
  function CheckTokenExpiration(m: Monitor, expiringSoon: bool): (r: Monitor)
    requires Valid(m)
    ensures Valid(r)
    ensures m.dialogShown || !expiringSoon ==> r == m
    ensures !m.dialogShown && expiringSoon ==>
              r.dialogShown && r.showRefreshDialog && r.armed == {m.nextHandle} && r.nextHandle == m.nextHandle + 1
  {
    if m.dialogShown then m
    else if expiringSoon then StartSessionTimeout(m.(showRefreshDialog := true, dialogShown := true))
    else m
  }

  /** What can happen to the monitor. A tick comes from one polling
      subscription and carries what `isAuthenticated` and
      `isTokenExpiringSoon` say at that moment. */
  datatype Event =
    | StartMonitoring
    | StopMonitoring
    | Tick(authenticated: bool, expiringSoon: bool)
    | ConfirmSucceeded
    | ConfirmFailed
    | Cancel
    | TimeoutFires(handle: nat)
    | Reset

  /** The state after an event, and whether the event ends the session. */
  datatype Outcome = Outcome(monitor: Monitor, logsOut: bool)

  /** One event. A tick reaches the check only through a live subscription
      and only while authenticated. A failed confirmation only logs out:
      the dialog stays up and its timer stays armed. A timer that fires
      hides the dialog and logs out but leaves its stale handle in
      `sessionTimeout`; a cleared timer never fires. */
  function Step(m: Monitor, e: Event): (r: Outcome)
    requires Valid(m)
    ensures Valid(r.monitor)
    ensures r.logsOut <==> e == ConfirmFailed || e == Cancel || (e.TimeoutFires? && e.handle in m.armed)
  {
    match e
    case StartMonitoring => Outcome(m.(subscriptions := m.subscriptions + 1), false)
    case StopMonitoring => Outcome(ClearSessionTimeout(m).(subscriptions := 0), false)
    case Tick(authenticated, expiringSoon) =>
      if m.subscriptions > 0 && authenticated then Outcome(CheckTokenExpiration(m, expiringSoon), false)
      else Outcome(m, false)
    case ConfirmSucceeded => Outcome(ClearSessionTimeout(m.(showRefreshDialog := false, dialogShown := false)), false)
    case ConfirmFailed => Outcome(m, true)
    case Cancel => Outcome(ClearSessionTimeout(m.(showRefreshDialog := false, dialogShown := false)), true)
    case TimeoutFires(h) =>
      if h in m.armed then Outcome(m.(showRefreshDialog := false, dialogShown := false, armed := m.armed - {h}), true)
      else Outcome(m, false)
    case Reset => Outcome(ClearSessionTimeout(m.(showRefreshDialog := false, dialogShown := false)), false)
  }

  /** At most one session timeout is ever pending. */
  lemma AtMostOneTimerPending(m: Monitor)
    requires Valid(m)
    ensures |m.armed| <= 1
  {
    if m.sessionTimeout.Some? {
      var h := m.sessionTimeout.value;
      if h in m.armed {
        assert m.armed == {h};
      } else {
        assert m.armed == {};
      }
    } else {
      assert m.armed == {};
    }
  }

  /** The state after a run of ticks with nothing else in between. */
  function Ticks(m: Monitor, ticks: seq<Event>): (r: Monitor)
    requires Valid(m)
    requires forall i :: 0 <= i < |ticks| ==> ticks[i].Tick?
    ensures Valid(r)
    decreases |ticks|
  {
    if ticks == [] then m else Ticks(Step(m, ticks[0]).monitor, ticks[1..])
  }

  /** However many ticks arrive (from any number of subscriptions), the
      dialog is raised at most once and at most one timer is started; once
      it is up, ticks change nothing. */
  lemma {:induction false} OneDialogPerCycle(m: Monitor, ticks: seq<Event>)
    requires Valid(m)
    requires forall i :: 0 <= i < |ticks| ==> ticks[i].Tick?
    ensures m.dialogShown ==> Ticks(m, ticks) == m
    ensures Ticks(m, ticks).nextHandle <= m.nextHandle + 1
    ensures Ticks(m, ticks).subscriptions == m.subscriptions
    decreases |ticks|
  {
    if ticks != [] {
      var next := Step(m, ticks[0]).monitor;
      OneDialogPerCycle(next, ticks[1..]);
    }
  }

  /** A successful confirmation, a cancellation, a reset and a stop each
      disarm the timer, so no later timeout can end the session. */
  lemma DismissalDisarms(m: Monitor, e: Event, h: nat)
    requires Valid(m)
    requires e == ConfirmSucceeded || e == Cancel || e == Reset || e == StopMonitoring
    ensures Step(m, e).monitor.armed == {} && Step(m, e).monitor.sessionTimeout.None?
    ensures Step(Step(m, e).monitor, TimeoutFires(h)) == Outcome(Step(m, e).monitor, false)
  {
  }

  /** A failed confirmation logs out but leaves the dialog up and its timer
      armed: thirty minutes later that timer hides the dialog and logs out
      once more. */
  lemma FailedConfirmLeavesTimerArmed(m: Monitor)
    requires Valid(m) && m.sessionTimeout.Some? && m.sessionTimeout.value in m.armed
    ensures Step(m, ConfirmFailed).monitor == m
    ensures var fired := Step(Step(m, ConfirmFailed).monitor, TimeoutFires(m.sessionTimeout.value));
      fired.logsOut && !fired.monitor.showRefreshDialog && fired.monitor.armed == {}
  {
    assert m.armed == {m.sessionTimeout.value};
  }

  /** A timer fires at most once, and the handle it leaves behind is stale:
      clearing it later disarms nothing. */
  lemma TimeoutFiresOnce(m: Monitor, h: nat)
    requires Valid(m) && h in m.armed
    ensures var fired := Step(m, TimeoutFires(h)).monitor;
      && fired.sessionTimeout == Some(h) && fired.armed == {}
      && Step(fired, TimeoutFires(h)) == Outcome(fired, false)
  {
    assert m.armed == {h};
  }

  /** Stopping does not touch the dialog, and after it ticks do nothing. */
  lemma StopEndsPolling(m: Monitor, authenticated: bool, expiringSoon: bool)
    requires Valid(m)
    ensures var stopped := Step(m, StopMonitoring).monitor;
      && stopped.dialogShown == m.dialogShown && stopped.showRefreshDialog == m.showRefreshDialog
      && Step(stopped, Tick(authenticated, expiringSoon)).monitor == stopped
  {
  }
}

/** `SessionRefreshService`: the monitor's fields on an object, with the
    logout and the renewal delegated to `AuthService`. */
module SessionRefresh {
  import opened Wrappers
  import opened Models
  import opened Platform
  import TokenClock
  import opened Auth
  import opened SessionMonitor

  class SessionRefreshService {
    const auth: AuthService
    var showRefreshDialog: bool
    var dialogShown: bool
    var sessionTimeout: Option<nat>
    var armed: set<nat>
    var nextHandle: nat
    var subscriptions: nat

    /** The monitor state these fields hold. */
    function State(): Monitor
      reads this
    {
      Monitor(showRefreshDialog, dialogShown, sessionTimeout, armed, nextHandle, subscriptions)
    }

    predicate Valid()
      reads this
    {
      SessionMonitor.Valid(State())
    }

    constructor (auth: AuthService)
      ensures this.auth == auth && State() == Initial && Valid()
    {
      this.auth := auth;
      showRefreshDialog := false;
      dialogShown := false;
      sessionTimeout := None;
      armed := {};
      nextHandle := 1;
      subscriptions := 0;
    }

    /** `startMonitoring`: one more polling subscription. */
    method StartMonitoring()
      requires Valid()
      modifies this
      ensures Valid() && State() == Step(old(State()), Event.StartMonitoring).monitor
    {
      subscriptions := subscriptions + 1;
    }

    /** `clearSessionTimeout`. */
    method ClearTimer()
      requires Valid()
      modifies this
      ensures Valid() && State() == ClearSessionTimeout(old(State()))
    {
      if sessionTimeout.Some? {
        armed := armed - {sessionTimeout.value};
        sessionTimeout := None;
      }
    }

    /** `stopMonitoring`: every subscription ends and the timer is cleared. */
    method StopMonitoring()
      requires Valid()
      modifies this
      ensures Valid() && State() == Step(old(State()), Event.StopMonitoring).monitor
    {
      subscriptions := 0;
      ClearTimer();
    }

    /** One tick of one polling subscription at time `now`. */
    method Tick(decode: TokenClock.Decoder, now: real)
      requires Valid()
      modifies this
      ensures Valid()
      ensures State() == Step(old(State()), Event.Tick(auth.IsAuthenticated(decode, now),
                                                       auth.tokens.IsTokenExpiringSoon(decode, now))).monitor
    {
      if subscriptions > 0 && auth.IsAuthenticated(decode, now) {
        if !dialogShown && auth.tokens.IsTokenExpiringSoon(decode, now) {
          showRefreshDialog := true;
          dialogShown := true;
          ClearTimer();
          sessionTimeout := Some(nextHandle);
          armed := armed + {nextHandle};
          nextHandle := nextHandle + 1;
        }
      }
    }

    /** `confirmRefresh`, once `refreshToken` has its answer: success hides
        the dialog and clears the timer; any failure only logs out (after
        the logout `refreshToken` itself does when the server refuses). */
    method ConfirmRefresh(outcome: Result<AuthResponse, HttpError>) returns (r: Result<AuthResponse, RefreshError>)
      requires Valid()
      modifies this, auth, auth.tokens.storage, auth.router
      ensures Valid()
      ensures r.Ok? ==> State() == Step(old(State()), ConfirmSucceeded).monitor
      ensures r.Ok? ==> outcome.Ok? && auth.Valid() && auth.currentUserSignal == Some(outcome.value.user)
      ensures r.Ok? ==> auth.tokens.storage.items == Auth.WithCredentials(old(auth.tokens.storage.items), auth.tokens.browser, outcome.value)
      ensures r.Ok? ==> auth.router.history == old(auth.router.history)
      ensures r.Ok? ==> auth.isAuthenticatedSubject == old(auth.isAuthenticatedSubject)
      ensures r.Ok? <==> old(auth.RefreshRequest()).Ok? && outcome.Ok?
      ensures r.Err? ==> State() == Step(old(State()), ConfirmFailed).monitor
      ensures r.Err? ==> auth.Valid() && auth.currentUserSignal.None? && !auth.isAuthenticatedSubject
      ensures r.Err? ==> auth.tokens.storage.items == Auth.WithoutCredentials(old(auth.tokens.storage.items), auth.tokens.browser)
      ensures r.Err? && old(auth.RefreshRequest()).Err? ==> auth.router.history == old(auth.router.history) + [Navigation(LOGIN_PATH, None)]
      ensures r.Err? && old(auth.RefreshRequest()).Ok? ==>
                auth.router.history == old(auth.router.history) + [Navigation(LOGIN_PATH, None), Navigation(LOGIN_PATH, None)]
    {
      r := auth.RefreshToken(outcome);
      if r.Ok? {
        showRefreshDialog := false;
        dialogShown := false;
        ClearTimer();
      } else {
        auth.Logout();
      }
    }

    /** `cancelRefresh`: hides the dialog, clears the timer, logs out. */
    method CancelRefresh()
      requires Valid()
      modifies this, auth, auth.tokens.storage, auth.router
      ensures Valid() && State() == Step(old(State()), Cancel).monitor
      ensures auth.Valid() && auth.currentUserSignal.None? && !auth.isAuthenticatedSubject
      ensures auth.tokens.storage.items == Auth.WithoutCredentials(old(auth.tokens.storage.items), auth.tokens.browser)
      ensures auth.router.history == old(auth.router.history) + [Navigation(LOGIN_PATH, None)]
    {
      showRefreshDialog := false;
      dialogShown := false;
      ClearTimer();
      auth.Logout();
    }

    /** The browser runs timer `handle`: an armed timer hides the dialog and
        logs out; its handle is not dropped. */
    method TimeoutFires(handle: nat)
      requires Valid()
      modifies this, auth, auth.tokens.storage, auth.router
      ensures Valid() && State() == Step(old(State()), Event.TimeoutFires(handle)).monitor
      ensures handle in old(armed) ==> auth.Valid() && auth.currentUserSignal.None? && !auth.isAuthenticatedSubject
      ensures handle in old(armed) ==>
                auth.tokens.storage.items == Auth.WithoutCredentials(old(auth.tokens.storage.items), auth.tokens.browser)
      ensures handle in old(armed) ==> auth.router.history == old(auth.router.history) + [Navigation(LOGIN_PATH, None)]
      ensures handle !in old(armed) ==> unchanged(auth, auth.tokens.storage, auth.router)
    {
      if handle in armed {
        armed := armed - {handle};
        showRefreshDialog := false;
        dialogShown := false;
        auth.Logout();
      }
    }

    /** `resetDialogState`: flag, dialog and timer back to rest. */
    method ResetDialogState()
      requires Valid()
      modifies this
      ensures Valid() && State() == Step(old(State()), Reset).monitor
    {
      dialogShown := false;
      showRefreshDialog := false;
      ClearTimer();
    }
  }
}
