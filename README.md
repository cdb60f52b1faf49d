# PlanifyFront client core, in Dafny

PlanifyFront is the Angular client of a task-board application: boards with
columns and tasks, notes, and an administration page for users. This project
models the logic of that client that is more than an HTTP call or a table, and
proves what it promises:

- **Credentials and their clock** (`TokenClock`, `TokenStore`): the three
  `localStorage` slots (access token, refresh token, expiry string), and the
  checks on the access token's `exp` claim (section 4.1.4 of RFC 7519) against
  the current time. Validity is `exp > now`. "Expiring soon" is
  `exp - now < 300` seconds, with no lower bound, so an expired token is also
  expiring soon.
- **The session** (`Auth`): login, registration, renewal with the refresh
  token, fetching the current user, logout, and the role checks of
  `AuthService`.
- **The renewal protocol of the HTTP interceptor** (`HttpRequests`, `Renewal`,
  `AuthInterceptor`):
  - The interceptor attaches `Authorization: Bearer <token>` (section 2.1 of
    RFC 6750).
  - A 401 (section 15.5.2 of RFC 9110) starts one renewal; later 401s wait for
    it.
  - When the renewal succeeds, every waiter and the request that started the
    renewal are retried with the new token.
  - When it fails, nothing is published, so the waiters stay parked until a
    later renewal succeeds (`Renewal.FailedCycleWaitsForNextSuccess`).
  - When the retried request that started the renewal answers with an error,
    the session logs out and the new credentials are removed again
    (`AuthInterceptor.Interceptor.RetryFailed`).
- **The session monitor** (`SessionMonitor`, `SessionRefresh`): the
  once-a-minute check, the "session about to expire" dialog, its 30-minute
  timeout, and the answers to the dialog.
  - Several details hold as the code is written:
    - A failed confirmation only logs out. The dialog stays up and its timer
      stays armed, so the timer later logs out once more
      (`SessionMonitor.FailedConfirmLeavesTimerArmed`).
    - A timer that fired leaves its stale handle in place.
    - `checkAuthStatus`, the layout's `logout` and the interceptor's failure
      path each ask for the login page twice.
- **The route guards** (`Guards`): `authGuard`, `adminGuard` and
  `publicGuard`, as decision functions and as runs against the service.
- **The board page** (`BoardDetail`, with the sort in `Ordering`):
  - the grouping of tasks under their columns, in position order;
  - the fractional position a dropped task gets, and a proof that it keeps a
    column's positions strictly ascending;
  - the guard on a drop's move request;
  - the tag field, and the task form with its request;
  - the colour maps.
- **The note, board and user pages** (`NoteList`, `BoardList`,
  `UserManagement`, with the list updates in `Lists`): form validation, the
  requests built from the form, the dialog state, and the list updates the
  server's answers trigger.
  - On the note and board pages, an edit with no record selected sets the
    saving flag, and nothing clears it again.
  - A note's request carries the fields untrimmed, even though it is
    validated on the trimmed fields.
- **The layout** (`Layout`): the avatar initials and the displayed name, the
  sidebar switch, and logout.
- **Theme and language** (`ThemeSettings`, `Translation`, `I18n`):
  - `ThemeService` keeps a theme and a language, applies them to the document
    and stores them under `planify-theme` and `planify-language`.
  - `TranslationService` keeps a separate language under `planify_language`.
  - `I18nService` looks texts up in the `ThemeService` language, with a
    fallback for missing keys and another for empty texts.
  - Because the theme effect stores the theme as soon as it first runs, the
    system-preference listener never changes the theme afterwards
    (`ThemeSettings.StoredThemeOverridesSystem`,
    `ThemeSettings.ThemeService.SystemThemeChanged`).

Each service or page with fields that change in place is a class. Each
method's postcondition ties the new state to the pure functions of its module,
and the properties are proved about those functions. Network answers, the
clock, the JWT decoder, `JSON.parse`, date parsing and locale formatting are
parameters. Angular effects run synchronously at the end of the setter or
constructor that triggers them.

## Model

| member | source | states |
|---|---|---|
| TokenClock.DecodeToken | src/app/shared/services/token.service.ts:135-146 | no payload for a missing or empty token; for a present token, exactly the decoder's result |
| TokenClock.IsTokenValid | src/app/shared/services/token.service.ts:98-111 | true iff the token decodes with an `exp` claim and `exp > now`, so `exp == now` is invalid; false without a token |
| TokenClock.IsTokenExpiringSoon | src/app/shared/services/token.service.ts:116-130 | true iff the token decodes with an `exp` and `exp - now < 300`; every decodable token that is not valid is expiring soon; false without a token |
| TokenClock.Claim | src/app/shared/services/token.service.ts:151-170 | a claim is returned only when the payload exists and the claim is non-empty, and then it is returned unchanged |
| TokenClock.GetUserId | src/app/shared/services/token.service.ts:151-154 | null when decoding fails or the `sub` claim is missing or empty; otherwise exactly the decoded `sub` claim |
| TokenClock.GetEmail | src/app/shared/services/token.service.ts:159-162 | null when decoding fails or the `email` claim is missing or empty; otherwise exactly the decoded `email` claim |
| TokenClock.GetRole | src/app/shared/services/token.service.ts:167-170 | null when decoding fails or the role claim is missing or empty; otherwise exactly the decoded role claim |
| TokenStore.OnlyAccessTokenDecides | src/app/shared/services/token.service.ts:98-130 | writing or removing any slot other than the access token changes neither validity nor imminent expiry |
| TokenStore.TokenService.GetAccessToken | src/app/shared/services/token.service.ts:39-44 | in the browser the stored access token, if any; null outside the browser |
| TokenStore.TokenService.GetRefreshToken | src/app/shared/services/token.service.ts:58-63 | in the browser the stored refresh token, if any; null outside the browser |
| TokenStore.TokenService.GetExpiresAt | src/app/shared/services/token.service.ts:77-82 | in the browser the stored expiry string, if any; null outside the browser |
| TokenStore.TokenService.SetAccessToken | src/app/shared/services/token.service.ts:30-34 | in the browser the slot holds the token and a get returns it; outside, nothing changes and the get is null; the other slots are unchanged |
| TokenStore.TokenService.SetRefreshToken | src/app/shared/services/token.service.ts:49-53 | as for the access token, on the refresh slot |
| TokenStore.TokenService.SetExpiresAt | src/app/shared/services/token.service.ts:68-72 | as for the access token, on the expiry slot |
| TokenStore.TokenService.ClearTokens | src/app/shared/services/token.service.ts:87-93 | exactly the three slots are removed, and all three getters return null |
| TokenStore.TokenService.IsTokenValid | src/app/shared/services/token.service.ts:98-111 | true iff the stored access token decodes with an `exp` after `now`; only possible in the browser with a stored token |
| TokenStore.TokenService.IsTokenExpiringSoon | src/app/shared/services/token.service.ts:116-130 | true iff the stored access token decodes with `exp - now < 300`; only possible in the browser with a stored token |
| Auth.AuthService.constructor | src/app/shared/services/auth.service.ts:26-41 | no user and not authenticated, signal and subject agreeing |
| Auth.AuthService.HandleAuthSuccess | src/app/shared/services/auth.service.ts:173-180 | the three slots hold the response's credentials; the user is published on both channels; authenticated |
| Auth.AuthService.Login | src/app/shared/services/auth.service.ts:66-71 | success establishes the session as above; an error is passed on with no state change |
| Auth.AuthService.Register | src/app/shared/services/auth.service.ts:77-82 | the same as login, for registration |
| Auth.AuthService.Logout | src/app/shared/services/auth.service.ts:132-138 | the three slots are cleared, no user, not authenticated, one navigation to `/auth/login`; the new state does not depend on the old one, so a second call changes nothing but the navigation log |
| Auth.AuthService.RefreshRequest | src/app/shared/services/auth.service.ts:89-94 | the request fails at once exactly when no non-empty refresh token is stored; otherwise it carries the stored token |
| Auth.AuthService.ApplyRefreshResponse | src/app/shared/services/auth.service.ts:96-108 | success overwrites the three slots and the user, leaving the authenticated flag and navigation alone; failure logs out and passes the server's error on |
| Auth.AuthService.RefreshToken | src/app/shared/services/auth.service.ts:88-109 | without a refresh token, fails with no state change; otherwise behaves as the response handling above |
| Auth.AuthService.GetCurrentUser | src/app/shared/services/auth.service.ts:115-127 | success publishes the user and marks authenticated without touching storage; failure logs out |
| Auth.AuthService.CheckAuthStatus | src/app/shared/services/auth.service.ts:46-60 | nothing happens without a valid token; with one, success publishes the user, and failure logs out and navigates to login twice |
| Auth.AuthService.IsAuthenticated | src/app/shared/services/auth.service.ts:143-145 | equals the validity of the stored access token, whatever the user fields hold |
| Auth.AuthService.IsAdmin | src/app/shared/services/auth.service.ts:29 | the computed `isAdmin` agrees with `isAdminUser`, that is `hasRole('Admin')`, and implies a user is present |
| Auth.AuthService.GetCurrentUserValue | src/app/shared/services/auth.service.ts:150-152 | the subject's user, which is the signal's user whenever the two channels agree |
| Auth.AuthService.HasRole | src/app/shared/services/auth.service.ts:157-160 | false without a user; with one, true iff its role is exactly the given one |
| Auth.AuthService.IsAdminUser | src/app/shared/services/auth.service.ts:166-168 | true iff a user is present whose role is exactly `Admin` |
| HttpRequests.AddTokenToRequest | src/app/shared/interceptors/auth.interceptor.ts:54-60 | same URL; exactly one `Authorization` header, `Bearer <token>`; every other header kept with its value |
| HttpRequests.IsExcluded | src/app/shared/interceptors/auth.interceptor.ts:21-27 | true iff `/auth/login`, `/auth/register` or `/health` occurs at some index of the URL |
| HttpRequests.Intercept | src/app/shared/interceptors/auth.interceptor.ts:20-37 | the request is watched iff its URL is not excluded and a non-empty token is stored; an unwatched request goes out unmodified, a watched one with the bearer header |
| HttpRequests.OnError | src/app/shared/interceptors/auth.interceptor.ts:40-47 | a renewal starts iff the status is 401 and the URL does not contain `/auth/refresh`; every other error is rethrown |
| Renewal.On401 | src/app/shared/interceptors/auth.interceptor.ts:71-97 | keeps the invariant (refreshing iff an initiator exists, and then nothing is published); starts a renewal iff none is in flight and a refresh token exists; otherwise parks the request at the end of the waiters |
| Renewal.WithToken | src/app/shared/interceptors/auth.interceptor.ts:90-97 | each waiter retried once, in order, with the bearer header |
| Renewal.OnRefreshSuccess | src/app/shared/interceptors/auth.interceptor.ts:76-81 | clears the flag, publishes the token, empties the waiters, retries every waiter in order and then the initiator |
| Renewal.OnRefreshFailure | src/app/shared/interceptors/auth.interceptor.ts:83-87 | clears the flag, publishes nothing, and keeps the waiters parked |
| Renewal.Burst | src/app/shared/interceptors/auth.interceptor.ts:65-98 | a run of 401s keeps the invariant and leaves a renewal in flight |
| Renewal.BurstWhileRefreshing | src/app/shared/interceptors/auth.interceptor.ts:89-97 | while a renewal is in flight, every 401 parks its request in arrival order and none starts a renewal |
| Renewal.SingleFlight | src/app/shared/interceptors/auth.interceptor.ts:71-97 | of any burst of 401s, exactly one (the first) starts a renewal and the rest wait behind it |
| Renewal.BurstThenSuccess | src/app/shared/interceptors/auth.interceptor.ts:76-97 | after a burst and a successful renewal, every request of the burst and every earlier waiter is retried exactly once with the new token |
| Renewal.FailedCycleWaitsForNextSuccess | src/app/shared/interceptors/auth.interceptor.ts:83-97 | the waiters of a failed renewal stay parked and are retried, ahead of the later requests, only when a later renewal succeeds |
| AuthInterceptor.Interceptor.constructor | src/app/shared/interceptors/auth.interceptor.ts:7-10 | not refreshing, nothing published, no waiters |
| AuthInterceptor.Interceptor.Send | src/app/shared/interceptors/auth.interceptor.ts:16-37 | what is sent is `Intercept` of the stored access token; an excluded URL is never watched |
| AuthInterceptor.Interceptor.Handle401 | src/app/shared/interceptors/auth.interceptor.ts:71-97 | the fields move as `On401` says; without a refresh token the session is logged out, and otherwise the service is untouched |
| AuthInterceptor.Interceptor.OnRefreshResponse | src/app/shared/interceptors/auth.interceptor.ts:75-88 | success stores the credentials and returns the retries of `OnRefreshSuccess`; failure logs out twice and returns the renewal's error, keeping the waiters |
| AuthInterceptor.Interceptor.RetryFailed | src/app/shared/interceptors/auth.interceptor.ts:76-87 | an error on the initiator's retry logs out, removing the credentials the renewal stored, and reaches the caller |
| SessionMonitor.ClearSessionTimeout | src/app/shared/services/session-refresh.service.ts:119-124 | no handle held and no timer armed afterwards; dialog and polling untouched |
| SessionMonitor.StartSessionTimeout | src/app/shared/services/session-refresh.service.ts:106-114 | exactly one timer armed afterwards, under a fresh handle the service holds |
| SessionMonitor.CheckTokenExpiration | src/app/shared/services/session-refresh.service.ts:61-71 | nothing while the dialog is up or the token is not expiring; otherwise the dialog shows and a new timeout is armed |
| SessionMonitor.Step | src/app/shared/services/session-refresh.service.ts:37-134 | each event keeps the invariant (dialog signal equals flag, timers armed only under the held handle); an event logs out iff it is a failed confirmation, a cancellation or an armed timer firing |
| SessionMonitor.AtMostOneTimerPending | src/app/shared/services/session-refresh.service.ts:106-124 | at most one session timeout is ever armed |
| SessionMonitor.OneDialogPerCycle | src/app/shared/services/session-refresh.service.ts:61-71 | any run of ticks raises the dialog at most once and starts at most one timer; once the dialog is up, ticks change nothing |
| SessionMonitor.DismissalDisarms | src/app/shared/services/session-refresh.service.ts:52-134 | a successful confirmation, a cancellation, a reset and a stop each disarm the timer, so no later timeout logs out |
| SessionMonitor.FailedConfirmLeavesTimerArmed | src/app/shared/services/session-refresh.service.ts:77-88 | a failed confirmation leaves the monitor unchanged, and its timer later hides the dialog and logs out again |
| SessionMonitor.TimeoutFiresOnce | src/app/shared/services/session-refresh.service.ts:106-113 | a fired timer leaves its stale handle behind and cannot fire again |
| SessionMonitor.StopEndsPolling | src/app/shared/services/session-refresh.service.ts:37-55 | stopping keeps the dialog state, and after it ticks do nothing |
| SessionRefresh.SessionRefreshService.constructor | src/app/shared/services/session-refresh.service.ts:17-32 | no dialog, no timer, not polling |
| SessionRefresh.SessionRefreshService.StartMonitoring | src/app/shared/services/session-refresh.service.ts:37-47 | one more polling subscription, as the monitor's step says |
| SessionRefresh.SessionRefreshService.ClearTimer | src/app/shared/services/session-refresh.service.ts:119-124 | the fields move as `ClearSessionTimeout` says |
| SessionRefresh.SessionRefreshService.StopMonitoring | src/app/shared/services/session-refresh.service.ts:52-55 | the fields move as the stop step says |
| SessionRefresh.SessionRefreshService.Tick | src/app/shared/services/session-refresh.service.ts:37-71 | a tick reaches the check only through a live subscription while authenticated, as the tick step says |
| SessionRefresh.SessionRefreshService.ConfirmRefresh | src/app/shared/services/session-refresh.service.ts:77-89 | success (a refresh token and a successful answer) stores the new credentials, hides the dialog and clears the timer, with no navigation; any failure only logs out, clearing the credentials: once to login without a refresh token, twice when the server refused |
| SessionRefresh.SessionRefreshService.CancelRefresh | src/app/shared/services/session-refresh.service.ts:95-100 | hides the dialog, clears the timer, logs out once: the three credential slots are removed |
| SessionRefresh.SessionRefreshService.TimeoutFires | src/app/shared/services/session-refresh.service.ts:109-113 | an armed timer hides the dialog and logs out, removing the three credential slots; any other handle changes nothing |
| SessionRefresh.SessionRefreshService.ResetDialogState | src/app/shared/services/session-refresh.service.ts:130-134 | flag, dialog and timer back to rest |
| Guards.AuthGuard | src/app/shared/guards/auth.guard.ts:10-36 | allows iff authenticated and (a user is in memory or the server knows the user); asks the server iff authenticated with no user; every refusal redirects to login with the return URL |
| Guards.AdminGuard | src/app/shared/guards/auth.guard.ts:41-52 | allows iff authenticated and the user in memory is an administrator; otherwise navigates to `/boards` |
| Guards.PublicGuard | src/app/shared/guards/auth.guard.ts:58-68 | allows exactly the unauthenticated; otherwise navigates to `/boards` |
| Guards.PublicAndAuthExclusive | src/app/shared/guards/auth.guard.ts:10-68 | no page is admitted by both the public and the auth guard; an unauthenticated visitor passes the public one only |
| Guards.AdminPassesAuthGuard | src/app/shared/guards/auth.guard.ts:10-52 | whoever passes the admin guard passes the auth guard without a server call |
| Guards.RunAuthGuard | src/app/shared/guards/auth.guard.ts:10-36 | against the service: the decision of `AuthGuard`; without a server call nothing but the guard's navigation changes; a successful call publishes the user and marks the session authenticated, storage untouched; a failed call logs out, clearing the credentials, before the guard's redirect |
| Guards.RunAdminGuard | src/app/shared/guards/auth.guard.ts:41-52 | against the service: the decision and the navigation of `AdminGuard` |
| Guards.RunPublicGuard | src/app/shared/guards/auth.guard.ts:58-68 | against the service: the decision and the navigation of `PublicGuard` |
| Ordering.SortInPlace | src/app/features/boards/board-detail/board-detail.ts:156 | the array ends sorted by position and is a permutation of the original |
| BoardDetail.TasksOf | src/app/features/boards/board-detail/board-detail.ts:159-160 | only tasks of that column, each exactly as often as in the input |
| BoardDetail.SortedTasksOf | src/app/features/boards/board-detail/board-detail.ts:159-161 | one column's tasks in position order, as a permutation of the filtered tasks |
| BoardDetail.OrganizeColumnsWithTasks | src/app/features/boards/board-detail/board-detail.ts:154-165 | columns sorted in place, as a permutation; one group per column in that order, each holding exactly that column's tasks in position order |
| BoardDetail.CalculateNewPosition | src/app/features/boards/board-detail/board-detail.ts:432-453 | a lone task gets 10000; the first half its successor's position (strictly below it when positive); the last its predecessor's plus 10000; an interior one the midpoint, strictly between distinct ascending neighbours |
| BoardDetail.OnlyNeighboursRead | src/app/features/boards/board-detail/board-detail.ts:432-453 | the result depends only on the neighbours' positions, never on the dropped task |
| BoardDetail.DropKeepsOrder | src/app/features/boards/board-detail/board-detail.ts:432-453 | dropping a task anywhere into a column with positive, strictly ascending positions, with the computed position, keeps them positive and strictly ascending |
| BoardDetail.DropRequest | src/app/features/boards/board-detail/board-detail.ts:368-427 | a same-column drop sends a move iff the new position differs, and keeps the column; a cross-column drop always sends the target column and the new position |
| BoardDetail.AfterMove | src/app/features/boards/board-detail/board-detail.ts:413-416 | the accepted move changes only the task's column and position |
| BoardDetail.RepeatedDropIsQuiet | src/app/features/boards/board-detail/board-detail.ts:376-387 | once a same-column move is accepted, the same drop again sends nothing |
| BoardDetail.TrimAll | src/app/features/boards/board-detail/board-detail.ts:238 | each piece trimmed, same count |
| BoardDetail.NonEmpty | src/app/features/boards/board-detail/board-detail.ts:239 | exactly the non-empty pieces survive, each as often as it occurs |
| BoardDetail.NonEmptyKeepsAll | src/app/features/boards/board-detail/board-detail.ts:239 | a list with no empty piece is kept whole |
| BoardDetail.NonEmptyDistributes | src/app/features/boards/board-detail/board-detail.ts:239 | the filter splits over concatenation, so the kept pieces keep their order |
| BoardDetail.CommaTags | src/app/features/boards/board-detail/board-detail.ts:236-242 | tags are non-empty, trimmed and comma-free; blank input gives no tags |
| BoardDetail.CommaTagsOfJoin | src/app/features/boards/board-detail/board-detail.ts:236-242 | splitting a comma-joined list gives its pieces trimmed, with the empty ones dropped, in order |
| BoardDetail.TrimAllOfTrimmed | src/app/features/boards/board-detail/board-detail.ts:238 | trimming trimmed pieces changes nothing |
| BoardDetail.TagsRoundTrip | src/app/features/boards/board-detail/board-detail.ts:236-242 | non-empty, trimmed, comma-free tags survive the comma field unchanged |
| BoardDetail.JsonTags | src/app/features/boards/board-detail/board-detail.ts:226 | exactly the non-blank string items are kept |
| BoardDetail.JsonTagsCounts | src/app/features/boards/board-detail/board-detail.ts:226 | each non-blank string item is kept as often as it occurs, and nothing else |
| BoardDetail.JsonTagsDistributes | src/app/features/boards/board-detail/board-detail.ts:226 | the filter splits over concatenation, so the kept items keep their order |
| BoardDetail.TagsFromInput | src/app/features/boards/board-detail/board-detail.ts:215-243 | no tag is blank; blank input gives none; a value not bracketed goes through the comma path |
| BoardDetail.FormFromTask | src/app/features/boards/board-detail/board-detail.ts:181-191 | the form holds the task's fields, a missing description as empty; an absent or empty due date gives no date, another one the `Date` it denotes, valid or not |
| BoardDetail.BuildTaskRequest | src/app/features/boards/board-detail/board-detail.ts:312-323 | trimmed title; description absent iff blank, else trimmed; the due date as its `toISOString` string, absent iff none is picked; tags absent iff none; no request when the date is invalid, where `toISOString` throws |
| BoardDetail.EditRoundTrip | src/app/features/boards/board-detail/board-detail.ts:312-323 | saving an unedited task with trimmed fields and a due date already in ISO form sends its own fields back |
| BoardDetail.EditDropsOrRejectsOtherDates | src/app/features/boards/board-detail/board-detail.ts:188 | an empty stored due date is dropped, one `new Date` cannot read stops the save, any other is sent as its ISO string |
| BoardDetail.SaveTask | src/app/features/boards/board-detail/board-detail.ts:248-323 | a blank title stops everything; a creation needs the selected column and an update the task; an invalid due date then stops the save; otherwise the request is built from the form and has a non-empty title |
| BoardDetail.PriorityColor | src/app/features/boards/board-detail/board-detail.ts:465-473 | High and Critical are danger, Low is info, Medium is warn, each both ways |
| BoardDetail.StatusColor | src/app/features/boards/board-detail/board-detail.ts:478-487 | InProgress and OnHold are warn, Open info, Completed success, Cancelled secondary, each both ways |
| BoardDetail.FormatDate | src/app/features/boards/board-detail/board-detail.ts:492-495 | the empty string for a missing or empty date, else the localized date |
| Lists.ReplaceById | src/app/features/notes/note-list/note-list.ts:200-202 | same length; each element with the updated id becomes the update; the others stay in place |
| Lists.ReplaceKeepsIds | src/app/features/boards/board-list/board-list.ts:177-179 | a replacement keeps every identifier where it was |
| Lists.ReplaceIdempotent | src/app/features/boards/board-list/board-list.ts:177-179 | replacing twice is replacing once |
| Lists.ReplaceUnknownIsNoOp | src/app/features/admin/user-management/user-management.ts:159-161 | the update appears iff its id was present; an unknown id changes nothing |
| Lists.RemoveById | src/app/features/notes/note-list/note-list.ts:234 | no survivor has the removed id |
| Lists.RemoveCounts | src/app/features/boards/board-list/board-list.ts:216 | every element with that id goes, and every other element is kept as often as it occurred |
| Lists.RemoveDistributes | src/app/features/admin/user-management/user-management.ts:191 | removal works piece by piece, so survivors keep their order |
| Lists.RemoveAbsentIsNoOp | src/app/features/notes/note-list/note-list.ts:234 | removing an absent id changes nothing |
| Lists.RemoveIdempotent | src/app/features/boards/board-list/board-list.ts:216 | removing twice is removing once |
| Lists.CreateThenDelete | src/app/features/notes/note-list/note-list.ts:165 | prepending a new record and deleting it restores the list |
| NoteList.PlainText | src/app/features/notes/note-list/note-list.ts:277 | no `#`, `*`, backtick or line break remains, and the ends are trimmed |
| NoteList.GetContentExcerpt | src/app/features/notes/note-list/note-list.ts:276-281 | no markup; at most 123 characters; the plain text when at most 120 long, else its first 120 followed by `...` |
| NoteList.ExcerptIsPlain | src/app/features/notes/note-list/note-list.ts:276-281 | an excerpt is its own plain text |
| NoteList.ExcerptIdempotent | src/app/features/notes/note-list/note-list.ts:276-281 | an excerpt is its own excerpt |
| NoteList.SaveNote | src/app/features/notes/note-list/note-list.ts:132-221 | invalid iff the title or content is blank; a create iff valid and not editing; an update iff valid, editing and a note is selected; the request carries the untrimmed fields |
| NoteList.NoteListPage.constructor | src/app/features/notes/note-list/note-list.ts:53-66 | no notes, dialog closed, empty form |
| NoteList.NoteListPage.OpenCreateNoteDialog | src/app/features/notes/note-list/note-list.ts:100-106 | dialog open for a new note with an empty form |
| NoteList.NoteListPage.OpenEditNoteDialog | src/app/features/notes/note-list/note-list.ts:111-117 | dialog open with the form filled from the note |
| NoteList.NoteListPage.CloseNoteDialog | src/app/features/notes/note-list/note-list.ts:122-127 | dialog hidden, no note, both fields empty |
| NoteList.NoteListPage.SaveNoteClicked | src/app/features/notes/note-list/note-list.ts:132-152 | the outcome of `SaveNote` on the form; the saving flag is set once validation passes, even with no note to update |
| NoteList.NoteListPage.NoteCreated | src/app/features/notes/note-list/note-list.ts:163-167 | the note is prepended, the dialog closes, saving ends, the editing flag is kept |
| NoteList.NoteListPage.NoteUpdated | src/app/features/notes/note-list/note-list.ts:198-204 | the notes are replaced by id, the dialog closes, saving ends, the editing flag is kept |
| NoteList.NoteListPage.SaveFailed | src/app/features/notes/note-list/note-list.ts:174-176 | saving ends; the dialog, its form and the editing flag stay |
| NoteList.NoteListPage.NoteDeleted | src/app/features/notes/note-list/note-list.ts:226-234 | every note with that id is removed; the dialog, the form, the current note and both flags stay |
| BoardList.BuildBoardRequest | src/app/features/boards/board-list/board-list.ts:143-146 | trimmed name; description absent iff blank, else trimmed and non-empty |
| BoardList.RequestRoundTrip | src/app/features/boards/board-list/board-list.ts:170-173 | rebuilding a request from its own fields gives it back |
| BoardList.SaveBoard | src/app/features/boards/board-list/board-list.ts:122-190 | name required; a create iff not editing; an update iff editing with a board selected; the request built from the form, with a non-empty name |
| BoardList.FormatDate | src/app/features/boards/board-list/board-list.ts:236-239 | `-` for a missing or empty date, else the localized date |
| BoardList.BoardListPage.constructor | src/app/features/boards/board-list/board-list.ts:47-60 | no boards, dialog closed, empty form |
| BoardList.BoardListPage.OpenCreateDialog | src/app/features/boards/board-list/board-list.ts:90-96 | dialog open for a new board with an empty form |
| BoardList.BoardListPage.OpenEditDialog | src/app/features/boards/board-list/board-list.ts:101-107 | dialog open with the board's name and its description or the empty string |
| BoardList.BoardListPage.CloseDialog | src/app/features/boards/board-list/board-list.ts:112-117 | dialog hidden, name, description and board reset |
| BoardList.BoardListPage.SaveBoardClicked | src/app/features/boards/board-list/board-list.ts:122-137 | the outcome of `SaveBoard` on the form; the saving flag is set once the name passes |
| BoardList.BoardListPage.BoardCreated | src/app/features/boards/board-list/board-list.ts:149-152 | the board is prepended, the dialog closes, saving ends, the edit flag is kept |
| BoardList.BoardListPage.BoardUpdated | src/app/features/boards/board-list/board-list.ts:176-181 | the boards are replaced by id, the dialog closes, saving ends, the edit flag is kept |
| BoardList.BoardListPage.SaveFailed | src/app/features/boards/board-list/board-list.ts:155-158 | saving ends; the dialog, its form and the edit flag stay |
| BoardList.BoardListPage.BoardDeleted | src/app/features/boards/board-list/board-list.ts:213-216 | every board with that id is removed; the dialog, the form, the current board and both flags stay |
| UserManagement.GetRoleSeverity | src/app/features/admin/user-management/user-management.ts:214-227 | Admin is danger, Manager warn, Guest success, each both ways; any other role, `User` included, is info |
| UserManagement.SaveUser | src/app/features/admin/user-management/user-management.ts:132-155 | nothing without a user; a warning iff a name is blank; otherwise an update of that user with the trimmed names, the role and the active flag |
| UserManagement.SaveUserRoundTrip | src/app/features/admin/user-management/user-management.ts:136-155 | saving again from the sent fields sends the same request |
| UserManagement.FormatDate | src/app/features/admin/user-management/user-management.ts:232-233 | `Never` for a missing or empty date, else the formatted date |
| UserManagement.UserManagementPage.constructor | src/app/features/admin/user-management/user-management.ts:55-65 | no users, dialog closed, the reset form |
| UserManagement.UserManagementPage.OpenEditUserDialog | src/app/features/admin/user-management/user-management.ts:107-115 | dialog open with the form filled from the user |
| UserManagement.UserManagementPage.CloseUserDialog | src/app/features/admin/user-management/user-management.ts:120-127 | dialog hidden; no user, empty names, role `User`, active |
| UserManagement.UserManagementPage.SaveUserClicked | src/app/features/admin/user-management/user-management.ts:132-148 | the outcome of `SaveUser` on the form; saving is set only when an update is sent |
| UserManagement.UserManagementPage.UserUpdated | src/app/features/admin/user-management/user-management.ts:158-163 | the users are replaced by id, the dialog closes, saving ends, the editing flag is kept |
| UserManagement.UserManagementPage.SaveFailed | src/app/features/admin/user-management/user-management.ts:170-172 | saving ends; the dialog, the whole form and the editing flag stay |
| UserManagement.UserManagementPage.UserDeleted | src/app/features/admin/user-management/user-management.ts:185-191 | every user with that id is removed; the dialog, the whole form, the current user and both flags stay |
| Layout.UserInitials | src/app/shared/layout/main-layout.ts:85-93 | one or two characters: `U` without a user or with both names empty, else the upper-cased first letters of the non-empty names |
| Layout.UserFullName | src/app/shared/layout/main-layout.ts:95-100 | never empty and trimmed: `Usuario` without a user or for a blank name, else the trimmed `first last` |
| Layout.FullNameOfCleanNames | src/app/shared/layout/main-layout.ts:95-100 | for non-empty trimmed names the full name is the two joined by one space |
| Layout.MainLayout.constructor | src/app/shared/layout/main-layout.ts:33-42 | the sidebar starts closed |
| Layout.MainLayout.GetUserInitials | src/app/shared/layout/main-layout.ts:85-93 | one or two characters for the signed-in user, `U` without one |
| Layout.MainLayout.GetUserFullName | src/app/shared/layout/main-layout.ts:95-100 | a non-empty trimmed name for the signed-in user, `Usuario` without one |
| Layout.MainLayout.ToggleSidebar | src/app/shared/layout/main-layout.ts:81-83 | the sidebar flag is negated |
| Layout.MainLayout.Logout | src/app/shared/layout/main-layout.ts:68-71 | the service logs out, removing the three credential slots, and the login page is asked for twice |
| Layout.MainLayout.ToggleTheme | src/app/shared/layout/main-layout.ts:77-79 | the theme service switches to the other theme and stores it; the language and the other storage keys are kept |
| Layout.MainLayout.ToggleLanguage | src/app/shared/layout/main-layout.ts:73-75 | the theme service switches language and stores it, and every text of `I18nService` follows; the theme and the other storage keys are kept |
| Models.OtherLanguage | src/app/shared/services/theme.service.ts:89-92 | the other language is never the same one |
| ThemeSettings.OtherTheme | src/app/shared/services/theme.service.ts:67-70 | the other theme is never the same one |
| ThemeSettings.LoadTheme | src/app/shared/services/theme.service.ts:155-165 | a theme iff in the browser the read succeeds with exactly `light` or `dark`, and then that one |
| ThemeSettings.LoadLanguage | src/app/shared/services/theme.service.ts:223-233 | a language iff in the browser the read succeeds with exactly `en` or `es`, and then that one |
| ThemeSettings.SystemTheme | src/app/shared/services/theme.service.ts:170-177 | dark iff in the browser the media query reports a dark preference |
| ThemeSettings.BrowserLanguage | src/app/shared/services/theme.service.ts:238-243 | Spanish iff in the browser the part before the first `-` is `es` |
| ThemeSettings.FirstPiece | src/app/shared/services/theme.service.ts:241 | the first piece of a split is everything before the first separator |
| ThemeSettings.BrowserLanguageSpanish | src/app/shared/services/theme.service.ts:238-243 | Spanish exactly for `es` and every `es-…` |
| ThemeSettings.MetaThemeColor | src/app/shared/services/theme.service.ts:124-137 | `#1e293b` iff dark, `#ffffff` iff light |
| ThemeSettings.AfterSystemChange | src/app/shared/services/theme.service.ts:182-197 | with a valid stored theme nothing changes; otherwise the theme is dark iff the system is |
| ThemeSettings.StoredThemeOverridesSystem | src/app/shared/services/theme.service.ts:182-197 | once a theme is stored, the system preference is never followed |
| ThemeSettings.ThemeService.constructor | src/app/shared/services/theme.service.ts:27-62 | the valid stored choices, else the system theme and the browser language; in the browser, both are applied and stored; outside, light and English with nothing stored |
| ThemeSettings.ThemeService.SetTheme | src/app/shared/services/theme.service.ts:75-77 | the theme is set, applied and stored; the language is untouched |
| ThemeSettings.ThemeService.ToggleTheme | src/app/shared/services/theme.service.ts:67-70 | the other theme, with `isDark` flipped |
| ThemeSettings.ThemeService.IsDark | src/app/shared/services/theme.service.ts:82-84 | true iff the current theme is dark, that is not light |
| ThemeSettings.ThemeService.SetLanguage | src/app/shared/services/theme.service.ts:97-99 | the language is set, applied and stored; the theme is untouched |
| ThemeSettings.ThemeService.ToggleLanguage | src/app/shared/services/theme.service.ts:89-92 | the other language |
| ThemeSettings.ThemeService.SystemThemeChanged | src/app/shared/services/theme.service.ts:182-197 | the theme after `AfterSystemChange`; from a consistent state nothing changes |
| Translation.LoadLanguage | src/app/shared/services/i18n/translation.service.ts:25-32 | not Spanish iff in the browser `en` is stored; a stored `en` or `es` is adopted |
| Translation.LoadAfterSave | src/app/shared/services/i18n/translation.service.ts:34-39 | what `setLanguage` stores is what the next load adopts |
| Translation.SeparateLanguageKeys | src/app/shared/services/i18n/translation.service.ts:5 | this service's key differs from the theme service's language key |
| Translation.TranslationService.constructor | src/app/shared/services/i18n/translation.service.ts:12-19 | the language loaded from storage, Spanish by default |
| Translation.TranslationService.IsSpanish | src/app/shared/services/i18n/translation.service.ts:51-53 | true iff the language is Spanish |
| Translation.TranslationService.IsEnglish | src/app/shared/services/i18n/translation.service.ts:55-57 | exactly one of `isSpanish` and `isEnglish` holds |
| Translation.TranslationService.SetLanguage | src/app/shared/services/i18n/translation.service.ts:34-39 | the language and its table are set; in the browser it is stored under `planify_language` |
| Translation.TranslationService.ToggleLanguage | src/app/shared/services/i18n/translation.service.ts:41-44 | the other language, stored |
| Translation.TranslationService.T | src/app/shared/services/i18n/translation.service.ts:47-49 | the translation table of the current language: the Spanish one when `isSpanish`, the English one when `isEnglish` |
| I18n.Translate | src/app/shared/services/i18n.service.ts:131-140 | a missing key shows as itself; a known key gives its text in the language, or the English text when that is empty |
| I18n.TranslationNeverEmpty | src/app/shared/services/i18n.service.ts:131-140 | with non-empty English texts, no text shown for a non-empty key is empty |
| I18n.EnglishIsTheTable | src/app/shared/services/i18n.service.ts:138-139 | in English the text is the table's |
| I18n.I18nService.constructor | src/app/shared/services/i18n.service.ts:19-22 | the service reads the theme service's language |
| I18n.I18nService.T | src/app/shared/services/i18n.service.ts:131-140 | in the theme service's language: a missing key shows as itself, a known key gives its text, or the English text when that is empty |
| Text.Trim | src/app/features/boards/board-detail/board-detail.ts:219 | `String.prototype.trim`: a slice of the input without surrounding white space, with only white space before and after it, empty iff the input is blank |
| Text.TrimIdempotent | src/app/features/boards/board-detail/board-detail.ts:219 | trimming twice is trimming once |
| Text.Split | src/app/features/boards/board-detail/board-detail.ts:237 | `split` pieces are separator-free and join back to the input |
| Text.SplitJoin | src/app/features/boards/board-detail/board-detail.ts:237 | splitting inverts joining separator-free pieces |
| Text.Contains | src/app/shared/interceptors/auth.interceptor.ts:21-27 | `includes` is true iff the substring occurs at some index |
| Text.StartsWith | src/app/features/boards/board-detail/board-detail.ts:222 | `startsWith` iff the prefix occurs at index 0 |
| Text.EndsWith | src/app/features/boards/board-detail/board-detail.ts:222 | `endsWith` iff the suffix fits and occurs at the last possible index |
| Text.ReplaceAll | src/app/features/notes/note-list/note-list.ts:277 | same length; each character of the class becomes the replacement and every other character stays |
| Text.FirstUpper | src/app/shared/layout/main-layout.ts:89-90 | empty for an empty name, else the upper-cased first character alone |

## Left out

- HTTP, RxJS and Angular machinery. Network answers are parameters (`Result` values). The polling interval and `setTimeout` are events. Signals and subjects are fields. Effects run synchronously at the end of the call that triggers them. `localStorage` is a map, and navigation is a recorded log.
- `jwtDecode` is a parameter, a decoder that returns `None` where the library throws. Signature checks are absent in the client, and none is modelled.
- `Date.now()` is the `now` parameter, in seconds.
- The `JSON.parse` call of the tag field is a parameter. Its result is a small JSON datatype holding strings, arrays and everything else.
- The CDK array moves are left out. The drop is specified on the column as it is after the move.
- Locale date formatting is a `localize` parameter, so `BoardList.FormatDate`, `UserManagement.FormatDate` and `BoardDetail.FormatDate` state only their handling of a missing date. The note page's `formatDate` has no missing-date case and only formats in the fixed `en-US` style, so it is left out.
- `HttpRequests.AddTokenToRequest`: header names are compared case-sensitively in the model, while Angular's `HttpHeaders` ignores case. A request that already carried `authorization` would keep both headers here. No request of the client sets that header itself.
- Positions are exact reals. The loss of precision from repeated halving in floating point is not modelled.
- `Text.UpperChar`: upper-cases only `a`-`z`. Other letters keep their case, although `toUpperCase` would map them.
- `Ordering.SortInPlace`: is an insertion sort and proves sorted plus permutation. It does not prove that it is stable, as the engine's `sort` is.
- `LocalStorage` never throws. Storage exceptions are modelled only in the pure `ThemeSettings.LoadTheme` and `ThemeSettings.LoadLanguage`.
- The translation tables (`TRANSLATIONS`, the `I18nService` dictionary) are given rather than spelled out. `Translation.TranslationService.T` and `I18n.I18nService.T` therefore state no more than the table lookup. The computed `translate(key)` is `T(key)`.
- Toasts (`MessageService`), console logging and the confirmation dialogs in front of deletes are left out. A delete is modelled from the server's confirmation on.
- Loading the lists (`loadNotes`, `loadBoards`, `loadUsers`, `loadBoard`), the board page's delete, and the navigation-only handlers (`openBoard`, `viewNoteDetail`, `goBack`) are left out. They are HTTP calls and navigation with no logic of their own.
- The error interceptor is treated as a pass-through. It only logs, and navigates on a 403.
- The board page's task dialog state (open, close, reset) is covered only by `BoardDetail.FormFromTask` and the empty form. Its signals are not a class here.
- The interceptor's retry of the initiating request happens after the waiters are retried, because the subject notifies its subscribers when the token is published. Each retried request goes out once. An error on a waiter's retry, a 401 included, is passed to the caller unhandled: it starts no renewal and causes no logout. That path has no member of its own here.
- `AuthInterceptor.Interceptor.RetryFailed`: requires that no later renewal is in flight. When an error on the retry arrives while a later renewal runs, the code also clears that renewal's flag, so the next 401 starts a second concurrent renewal. The one-renewal coordinator does not represent that state.
- Strings are sequences of code points, while JavaScript's `length`, `substring` and `charAt` count UTF-16 units. For text with characters outside the Basic Multilingual Plane, such as emoji, `NoteList.GetContentExcerpt` (the 120-unit cut) and `Layout.UserInitials` (the first unit of each name) differ from the code.
- `I18n.TranslationNeverEmpty`: holds for the table's own keys. The lookup `this.translations[key]` also finds keys inherited from `Object.prototype`, such as `constructor`, and for those `t` returns undefined rather than the key. The table is a map here, so the model does not capture that.
- `BoardDetail.FormFromTask`: `new Date(s).toISOString()` is a parameter, so which strings denote valid dates, and their ISO form, are not spelled out.
