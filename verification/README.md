# Coffix: a verified model of the session client, the admin commands and their neighbours

This project models the stateful and arithmetic core of the Coffix dashboard, mobile app and backend in Dafny, and
proves what each part is relied on for. `dafny verify dfyconfig.toml` checks everything.

The parts, hardest first:

- **The staff session.** `SessionProtocol` is the dashboard's session client as a state machine: every stretch of code
  between two awaits is one step, every pending call a program counter with the values its closure captured, so every
  interleaving of requests, uploads, restores, refreshes, logins and logouts is a run. `SessionSafety` proves what each
  step keeps, `SessionRuns` which results a call may return over whole runs, `SessionSends` what is put on the wire,
  `SessionRefreshes` how calls share a refresh, `SessionLogouts` what a logout achieves and `SessionOutcomes` how every
  call ends. `WebClient` is the object itself, whose methods update its variables and are each proved equal to one step.
  `CookieCommands` adds any number of tabs sharing one rotating refresh cookie.
- **Wall-clock inversion.** `Calendar` prints and parses civil date and time text (section 21.4.1 of ECMA-262),
  `CalendarLaws` ties it to the epoch and to the succession of days, `WallClock` inverts "UTC instant to wall text" for
  any two-valued zone, and `IsraelTime` joins them.
- **Admin commands and queries.** `Stock`, `StockRuns`, `StockEffects` and `StockLedger` (corrections against
  reservations), `Access` (the last administrator and its audit trail), `Catalog` (version tokens), `AuditQuery` and
  `AuditLookup` (a ten-way union and two outer joins against a per-row lookup), and `AdminCommands`, the object that
  assigns the rows.
- **Smaller machines and loops.** `ImageUpload`, `Inbox`, `ReducedMotion`, `Redaction`, `IntakeSlots`, `ShippingFee`
  and `Latency`.

Several promises hold only under a condition. Each condition is proved exact, or needed in every state where it can
fail:

- A request's *result* belongs to one session, but a send of it leaves that session exactly when it is the retry after
  an awaited refresh and the user or role changed in between (`SessionSends.RequestIsSentElsewhereExactlyWhen`);
  uploads are never sent that way.
- A successful logout leaves nobody signed in if no other logout ends while it is pending
  (`SessionLogouts.SoloLogoutSignsOut`). In every reachable state with two logouts pending the other one can end first,
  and the user can then be signed in again without a login (`SessionLogouts.OverlappingLogoutsDoNotSignOut`).
- Serialising the tabs protects the cookie against every lost response but that of a refresh of a live session that was,
  or may still be, granted; such a loss can always end in reuse revocation
  (`CookieCommands.LossTriggersReuseExactlyWhenHarmful`). Without Web Locks every state with a live cookie can come to
  it with nothing lost (`CookieCommands.UnlockedTabsTriggerReuse`). The comment at admin/src/features/auth/api.tsx:11-12
  names neither condition.
- `israelInstant` ends in a range error exactly when a correction leaves the four-digit years
  (`IsraelTime.FailsExactlyWhenRunningOut`): for every text of the years 0 to 998, and of the last hours of 9999, such
  as a date field can submit (`IsraelTime.YearsThatRunOut`, `IsraelTime.LastHoursRunOut`). A minute outside the
  four-digit years is never recovered from its text, even an unambiguous one (`IsraelTime.OtherYearsNeverComeBack`).
- A version token identifies a row's content exactly when every changing edit advances the timestamp
  (`Catalog.TokensIdentifyExactlyWhenAdvancing`); with equal transaction timestamps a stale edit is accepted
  (`Catalog.EqualTimestampsAcceptStaleEdit`).
- The last-administrator refusal is exact for active administrators. For inactive ones it protects nobody, and is made
  although an administrator would remain exactly when there is a single active one (`Access.InactiveAdminRefusal`).
- The shared motion preference keeps one native subscription unless its only listener subscribes once more, and exactly
  then a second one starts (`ReducedMotion.KeptExactlyUnlessSubscribedAgain`); `useSyncExternalStore`, its one caller,
  gives every consumer a callback of its own.

## Model

| member | source | states |
|---|---|---|
| SessionSafety.StepIsGood | admin/src/api/client.ts:17-141 | Every step of every call and of the refresh keeps: a session is a staff session, at most one refresh is outstanding and `refreshFlight` names it, versions only grow, captured values never change, finished calls stay finished, and the version moves by one exactly when user or role changes |
| SessionRuns.ReachableSessionsAreStaff | admin/src/api/client.ts:73-95 | In every reachable state a session has a token, a user and a staff role; a set `refreshFlight` names an existing refresh, and a refresh is outstanding exactly when `refreshFlight` is set to it |
| SessionRuns.VersionCountsChanges | admin/src/api/client.ts:17-21 | Between any two moments of a run the version has grown by the number of changes of user or role in between, so logging out and in as the same user counts twice |
| SessionRuns.ResultsBelongToOneSession | admin/src/api/client.ts:27-69 | Over every run a guarded call returns a payload (or, for a request, a server problem) only if user and role were the same at every moment from its start to its end |
| SessionRuns.SessionChangedMeansChange | admin/src/api/client.ts:31-36 | A call reports a changed session only if user or role changed while it was pending |
| SessionRuns.EndedSessionsReturnNothing | admin/src/api/client.ts:52-68 | A request started while signed in and still pending once nobody is signed in fails or reports a changed session, never data |
| SessionRuns.UnauthorizedSignsOut | admin/src/api/client.ts:63-67 | An authenticated request that ends with 401 leaves nobody signed in |
| SessionRuns.UploadsAreSentInTheirOwnSession | admin/src/api/client.ts:99-121 | Every send belongs to a call, every send of an upload, retries included, happens at the version it started at, and an upload to a storage URL never carries a token |
| SessionRuns.EveryCallCanEnd | admin/src/api/client.ts:27-141 | Nothing deadlocks: from every reachable state every pending call can come to its end within six steps |
| SessionSends.AtMostOneRetry | admin/src/api/client.ts:51-58 | In every run no call is sent more than twice, and unauthenticated requests and storage uploads at most once |
| SessionSends.AnswerResends | admin/src/api/client.ts:53-58 | The answer to a send is followed by another at once exactly when it is a 401 to a request's first send, whose token is out of date in an unchanged session that has another; the second carries the new token |
| SessionSends.ResumeResends | admin/src/api/client.ts:55-57 | A call that awaited a refresh is sent again exactly when the refresh yielded a session, an upload only in the session it started in, with the token of the moment |
| SessionSends.EverySendIsExplained | admin/src/api/client.ts:37-58 | Over every run each send is the first of its call or one of these two retries, and carries the token of the moment if it is an authenticated request or an upload to the API, and none otherwise |
| SessionSends.RequestIsSentElsewhereExactlyWhen | admin/src/api/client.ts:51-62 | Over every run an authenticated request is sent at another version than it started at if and only if it is the retry after an awaited refresh and user or role changed between the start and that resumption |
| SessionSends.RetryIsSentBeforeTheCheck | admin/src/api/client.ts:53-62 | A run in which that happens: a request is retried with another user's token and only its result is discarded |
| SessionSends.OutcomeIsTheAnswer | admin/src/api/client.ts:59-68 | Data is returned only for a 2xx answer and is that answer's body; a request reports the problem it was answered with; a call fails exactly on a transport failure or a refresh that throws |
| SessionSends.LoginIsAllOrNothing | admin/src/api/client.ts:73-82 | Over every run a login ends with its command's result: a session granted to an administrator or technician, with a token and an id, is signed in and returned; anything else fails and leaves whoever is signed in |
| SessionOutcomes.LoginEndsExactly | admin/src/api/client.ts:73-82 | In every reachable state, for every result of a login's command: it signs in and returns what was granted if and only if that is staff with a token and an id, and otherwise fails and changes nothing |
| SessionOutcomes.LogoutEndsExactly | admin/src/api/client.ts:133-141 | A logout that was carried out leaves nobody signed in, a failed one leaves the session as it was, and either stops signing out |
| SessionOutcomes.RestoreStartsExactly | admin/src/api/client.ts:127 | A restore returns the known session, nobody while signing out, and otherwise awaits the one refresh |
| SessionOutcomes.RestoreEndsExactly | admin/src/api/client.ts:127 | A restore that awaited a refresh returns what it yields and fails if it throws |
| SessionOutcomes.CommandsComeAfterTheRefresh | admin/src/api/client.ts:129-137 | Over every run a login or logout issues its command only after the refresh that was running when it started has settled |
| SessionOutcomes.CallsAwaitTheOneRefresh | admin/src/api/client.ts:84-95 | Whatever starts to wait, waits for the refresh that is then outstanding |
| SessionOutcomes.StartsCapture | admin/src/api/client.ts:28-30 | A request captures the token and the version of the moment it starts, an upload the version |
| SessionOutcomes.RequestIsAnsweredExactly | admin/src/api/client.ts:51-62 | Over every run, for every answer to a request: where the call goes next, by whether user or role changed since its start (never, for an unauthenticated one), whether it is the first answer, its status, and whether its token is still current |
| SessionOutcomes.RequestResumesExactly | admin/src/api/client.ts:55-58 | A request that awaited a refresh fails, is sent again, or reads the 401 it had, exactly as the refresh settled |
| SessionOutcomes.RequestEndsExactly | admin/src/api/client.ts:59-68 | Over every run, once its body has arrived a request reports a changed session if and only if user or role changed since it started, else returns the body on a 2xx, else reports its status; a 401 signs the user out |
| SessionOutcomes.UploadIsAnsweredExactly | admin/src/api/client.ts:111-120 | The same for every answer to an upload: a 2xx in an unchanged session is its success and nothing else is |
| SessionOutcomes.UploadResumesExactly | admin/src/api/client.ts:113-116 | An upload that awaited a refresh fails, reports a changed session, is sent again, or reads its 401, exactly as the refresh settled and the session changed |
| SessionRefreshes.LaunchIsExact | admin/src/api/client.ts:53-57 | Over all steps, a refresh is launched exactly when nobody is refreshing or signing out and the step is a restore before readiness, a 401 to a request whose token is still current, or a 401 to an upload to the API whatever its token, in an unchanged session |
| SessionRefreshes.RefreshIsLaunchedOnce | admin/src/api/client.ts:53-57 | Requests that fail together refresh once: over every run, if the server never grants an old token again, at most one refresh is launched by the requests that captured a given token |
| SessionRefreshes.RefreshOutcome | admin/src/api/client.ts:84-95 | Over every run, and whatever interleaves with its handlers, a refresh settles as its command's result says: it yields the granted staff session, yields nobody on a 401, and throws otherwise |
| SessionRefreshes.RefreshPublishes | admin/src/api/client.ts:84-95 | Whenever a refresh moves: a granted staff session is published; a failure is published as nobody, with the error unless the session had expired; settling publishes nothing and clears the flight |
| SessionLogouts.SoloLogoutKeepsOut | admin/src/api/client.ts:133-141 | From its start until it ends, a logout before which no other logout ends keeps the client signing out, and no refresh is launched, whatever else interleaves, new logouts included |
| SessionLogouts.SoloLogoutSignsOut | admin/src/api/client.ts:133-141 | When such a logout succeeds nobody is signed in, no refresh is in flight, none was launched since it started, and signing out is over |
| SessionLogouts.OverlappingLogoutsDoNotSignOut | admin/src/api/client.ts:133-141 | In every reachable state with two logouts pending, and however the other ends, it can end first, this one can succeed while a refresh is in flight, and that refresh can sign any member of staff in |
| WebClientObject.WebClient.Answer | admin/src/api/client.ts:9-141 | The object's update of its variables when an answer arrives is the machine's step and keeps the invariant; every other method of the class is proved equal to its step in the same way |
| CookieCommands.StepStaysSerialised | admin/src/features/auth/api.tsx:11-17 | With Web Locks every step but a harmful loss keeps: only the lock holder is between sending and storing, the stored cookie is current unless a rotation is on its way, and abandoned refreshes are of revoked sessions |
| CookieCommands.NoTabTriggersReuse | admin/src/features/auth/api.tsx:11-22 | For any number of tabs, any interleaving and any losses but harmful ones, every awaited command presents the current token, abandoned refreshes only tokens of revoked sessions, and reuse revocation never happens |
| CookieCommands.LossTriggersReuseExactlyWhenHarmful | backend/src/coffix/auth/service.py:196-229 | In every serialised state a loss can end in reuse revocation, with nothing else lost, if and only if it is of a refresh of a live session that was granted or may still be granted |
| CookieCommands.RefreshRotates | backend/src/coffix/auth/service.py:196-229 | A whole refresh, from sending to storing: the current token of a live session is replaced by the next, a superseded one revokes the session, and every other presents in vain and changes nothing |
| CookieCommands.VerifySignsIn | backend/src/coffix/auth/service.py:172-194 | A whole verification stores the first token of a session of its own, or changes nothing |
| CookieCommands.LogoutRevokes | backend/src/coffix/auth/service.py:231-242 | A whole logout deletes the cookie and revokes the session whose current token it presents, and no other |
| CookieCommands.UnlockedTabsTriggerReuse | admin/src/features/auth/api.tsx:13-17 | Without Web Locks every state with a live cookie can come to reuse revocation with no response lost |
| CookieCommands.TwoPresentersTriggerReuse | backend/src/coffix/auth/service.py:196-229 | In every state two refreshes on their way with one live token end in reuse |
| CookieCommands.SharedCookie.Receive | admin/src/features/auth/api.tsx:13-17 | The response's cookie is stored before the lock is released, which is the machine's step and keeps the tabs serialised; every other method of the class is proved equal to its step in the same way |
| CalendarLaws.Epoch | admin/src/features/service/time.ts:3-8 | Instant 0 is 1970-01-01T00:00, as fields and as text |
| CalendarLaws.NextDay | admin/src/features/service/time.ts:3-8 | 1440 minutes after every civil time comes the same time of the next civil day, with the month lengths and the 4/100/400 rule written out |
| CalendarLaws.TimeOfDay | admin/src/features/service/time.ts:3-8 | Hour and minute of every instant are those of its minute of the day |
| CalendarLaws.PrintedDigits | admin/src/features/service/time.ts:6 | Printed text holds year, month, day, hour and minute as zero-padded digits at their places |
| CalendarLaws.ParsesExactly | admin/src/features/service/time.ts:9-10 | A text parses if and only if it has that shape and names a month, a day of it and a time up to 24:00 |
| CalendarLaws.ParsedValue | admin/src/features/service/time.ts:9 | A parsed text counts days, hours and minutes on from the first of its month |
| Calendar.FieldsThenMinutes | admin/src/features/service/time.ts:3-7 | Reading the fields of any minute and counting them back gives that minute; which day it is, is fixed by the two laws above |
| Calendar.MinutesThenFields | admin/src/features/service/time.ts:3-7 | Conversely counting any valid civil time and reading it back gives that time |
| IsraelTime.ParsePrinted | admin/src/features/service/time.ts:3-9 | Parsing the wall text of any instant of a four-digit year gives its minute back |
| IsraelTime.PrintParsed | admin/src/features/service/time.ts:3-9 | Printing a parsed text of a four-digit year gives the text back |
| IsraelTime.CalendarIsLawful | admin/src/features/service/time.ts:3-12 | The calendar text satisfies the laws the inversion is proved from |
| WallClock.IsraelInstant | admin/src/features/service/time.ts:8-16 | The correcting loop and the probe compute the specified inversion, errors included |
| WallClock.TwoRoundsReachAnOffset | admin/src/features/service/time.ts:11-12 | Whatever the transitions, two rounds end on the wall time less one of the two offsets |
| WallClock.InverseIsExact | admin/src/features/service/time.ts:8-16 | For any lawful text, any two-valued zone and any text that parses: the result is `t` if and only if the two texts the corrections read back parse and `t` is the only whole minute with that wall text |
| WallClock.RangeFailureIsExact | admin/src/features/service/time.ts:11-12 | The result is a range error if and only if one of those two texts does not parse |
| IsraelTime.FailsExactlyWhenRunningOut | admin/src/features/service/time.ts:11-12 | For every calendar text that parses the range error comes if and only if the wall time read as an instant, or the first corrected guess, has a wall time outside the four-digit years |
| IsraelTime.YearsThatRunOut | admin/src/features/service/time.ts:11-12 | Every text of the years 0 to 998 ends in the range error, and none of the years 1001 to 9998 |
| IsraelTime.LastHoursRunOut | admin/src/features/service/time.ts:11-12 | In a zone ahead of UTC every text of the last hours of 9999 ends in the range error |
| IsraelTime.InstantExactlyWhenUnique | admin/src/features/service/time.ts:8-16 | For every text that parses the result is `t` if and only if the corrections stay within the four-digit years and `t` is the only whole minute with that wall text |
| IsraelTime.RefusedExactlyWhenZeroOrTwo | admin/src/features/service/time.ts:13-14 | A text that parses is refused if and only if the corrections stay within the four-digit years and no minute has it, or two minutes an hour apart have it |
| IsraelTime.PrintAfterInverse | admin/src/features/service/time.ts:3-16 | Whatever the text and zone, a returned instant prints back as exactly that text |
| IsraelTime.InverseAfterPrint | admin/src/features/service/time.ts:3-16 | For every whole minute, printing and inverting gives it back if and only if its wall time lies in a four-digit year, the corrections stay within those years, and no other minute prints the same |
| IsraelTime.OtherYearsNeverComeBack | admin/src/features/service/time.ts:3-16 | A minute outside the four-digit years, of any era, is never recovered from its text |
| IsraelTime.MalformedTextHasNoInstant | admin/src/features/service/time.ts:9-10 | A well-shaped text that names no civil time is refused and is the wall text of no minute |
| IsraelTime.OtherYearsAreRefused | admin/src/features/service/time.ts:9-10 | Wall text of the years 1 to 999 and from 10000 on is refused |
| StockRuns.GroupedIsTotal | backend/src/coffix/admin/queries.py:186-208 | The grouped, outer-joined figure of a SKU is the direct sum over its live reservations, 0 when it has none |
| StockRuns.InventoryAgreesWithCorrection | backend/src/coffix/admin/queries.py:186-229 | After a correction the inventory list shows exactly the row the correction reports |
| StockRuns.InventoryShowsLiveReservations | backend/src/coffix/admin/queries.py:186-229 | A row of the list shows the stock, the units of active reservations that have not expired, what is left of a limited stock, and the SKU's own active flag |
| StockRuns.AvailabilityIsNotNegative | backend/src/coffix/admin/queries.py:217-226 | In a sound store the list's availability is never negative |
| StockRuns.CorrectionStaysSound | backend/src/coffix/admin/queries.py:618-678 | A correction keeps tracked stock at or above the live reservations |
| StockRuns.ReserveStaysSound | backend/src/coffix/inventory/service.py:93-165 | A granted reservation keeps tracked stock at or above the live reservations |
| StockRuns.OrdersCanAlwaysBeConsumed | backend/src/coffix/inventory/service.py:201-219 | In a sound store paying for an order fails if and only if one of its reservations has expired |
| StockRuns.StockCoversReservations | backend/src/coffix/admin/queries.py:618-678 | Over every serial run of corrections, reservations, releases, transfers, payments and clock advances, with moves to and from unlimited stock, tracked stock never drops below the live reservations |
| StockRuns.StockIsConserved | backend/src/coffix/inventory/service.py:93-229 | Between corrections of a SKU, stock plus consumed units is constant over every run |
| StockEffects.ReservationsStayUnique | backend/migrations/versions/0004_stock_reservations.py:58-71 | Over every run an owner has at most one active reservation of a SKU |
| StockEffects.ReserveSetsTheCart | backend/src/coffix/inventory/service.py:93-165 | A granted reservation leaves the cart holding what it asked for (nothing of an unlimited SKU) and moves no other owner's or SKU's units and no stock |
| StockEffects.ReserveGrantsWhatIsAvailable | backend/src/coffix/inventory/service.py:51-78 | A positive request for an active tracked SKU is granted if and only if it fits the shown availability plus what the cart holds |
| StockEffects.ReserveIsRefusedExactly | backend/src/coffix/inventory/service.py:93-135 | Every refusal of a reservation with its error and order: negative, unknown, expired cart row, inactive, expiry already past, more than available to the cart; everything else is granted |
| StockEffects.GrantedRowIsAsAsked | backend/src/coffix/inventory/service.py:136-165 | After a grant the cart's row carries the quantity and the expiry asked for |
| StockEffects.InactiveNeverGrows | backend/src/coffix/inventory/service.py:113-115 | What a cart holds of an inactive SKU never grows |
| StockEffects.ReleaseFreesTheOwner | backend/src/coffix/inventory/service.py:167-175 | A release frees everything the owner held and nothing else |
| StockEffects.TransferMovesTheCart | backend/src/coffix/inventory/service.py:177-199 | A transfer moves everything from cart to order and leaves the reserved totals unchanged |
| StockEffects.TransferIsExact | backend/src/coffix/inventory/service.py:177-199 | When a transfer is refused and why; otherwise it writes order and expiry into exactly the cart's active rows |
| StockEffects.PaymentConsumesTheOrder | backend/src/coffix/inventory/service.py:201-219 | A payment consumes everything the order held, takes exactly that out of tracked stock, and touches nobody else |
| StockLedger.CorrectionIsExact | backend/src/coffix/admin/queries.py:635-660 | A correction commits if and only if the SKU exists, its stock is what was expected, and the new stock is not negative nor below what the inventory list shows as reserved; it then sets that stock and nothing else; each refusal has its own error |
| StockLedger.StaleCorrectionChangesNothing | backend/src/coffix/admin/queries.py:635-640 | Over every run, once anything has moved the stock away from what was loaded, the correction leaves store and audit as they are; an accepted one audits the stock it replaced |
| StockLedger.StaleExactlyWhenConsumed | backend/src/coffix/admin/queries.py:618-678 | Over every run in which nobody corrected the SKU since it was loaded, a correction is refused as stale if and only if units of it were consumed meanwhile |
| AdminCommandsObject.AdminCommands.CorrectStock | backend/src/coffix/admin/queries.py:618-678 | It succeeds if and only if the stock is what was expected and the new one covers what is reserved; each refusal leaves rows and audit untouched; a success sets the stock, audits the stock it replaced, returns the inventory list's row, and keeps the store sound |
| Access.ChangesExactlyWhatItNames | backend/src/coffix/admin/queries.py:566-616 | Every refusal with its error and order; otherwise exactly the named role and flag of exactly the target change, and the entry records the user before and after |
| Access.ChangeKeepsAnAdmin | backend/src/coffix/admin/queries.py:566-616 | An accepted access change leaves an active administrator if there was one |
| Access.LastAdminRefusalIsExact | backend/src/coffix/admin/queries.py:581-598 | For an active administrator other than the actor, "last administrator" is reported if and only if the change would leave none |
| Access.InactiveAdminRefusal | backend/src/coffix/admin/queries.py:581-598 | For an inactive administrator the refusal protects nobody: the change costs no active administrator, and is refused although one would remain if and only if there is exactly one |
| Access.RefusedForNobody | backend/src/coffix/admin/queries.py:581-598 | The one active administrator cannot demote an inactive one |
| Access.AnAdminRemains | backend/src/coffix/admin/queries.py:566-616 | Over every serial run of access commands an active administrator remains |
| Access.AuditReproducesAccess | backend/src/coffix/admin/queries.py:599-616 | Replaying the audit from the initial users reproduces everybody's role and active flag, and each entry's "before" is what the earlier entries left |
| AdminCommandsObject.AdminCommands.ChangeUserAccess | backend/src/coffix/admin/queries.py:566-616 | Refusals change nothing; a commit updates the one user, appends the audit row with before and after, and leaves an active administrator |
| Catalog.TokensIdentifyExactlyWhenAdvancing | backend/src/coffix/admin/schemas.py:199-223 | With a clock that never runs backwards, a token stands for one content of its row throughout every history if and only if each changing edit advances the timestamp |
| Catalog.EditsChangeExactlyWhatTheyName | backend/src/coffix/admin/router.py:299-331 | At every moment of a history a known, current and valid edit gives its keys its values, keeps every other key and row, moves the timestamp exactly if a value changed, and is audited; any other leaves rows and audit as they were |
| Catalog.AcceptedEditsBuildOnWhatWasLoaded | backend/src/coffix/admin/queries.py:552-564 | The row an accepted edit meets is exactly the one its author loaded |
| Catalog.EditsKeepWhatWasLoaded | backend/src/coffix/admin/queries.py:552-564 | So every key an accepted edit does not name is left as its author saw it |
| Catalog.OneChangePerToken | backend/src/coffix/admin/queries.py:552-564 | Once an edit carrying a token has changed the row, no later edit with that token is accepted |
| Catalog.AuditReproducesRows | backend/src/coffix/admin/router.py:299-331 | Replaying the audit from the initial rows reproduces the rows, tokens included |
| Catalog.EqualTimestampsAcceptStaleEdit | backend/src/coffix/catalog/models.py:41-43 | Two changes with the same transaction timestamp: the second, stale edit is accepted |
| AdminCommandsObject.AdminCommands.UpdateRecord | backend/src/coffix/admin/router.py:299-423 | Missing record, changed record and invalid change, in this order, leave everything untouched; a success gives the row the edit's values, keeps its other keys and all other rows, moves its timestamp only if a value changed, and appends the audit row |
| AuditLookup.PartIsKeyed | backend/src/coffix/admin/queries.py:389-432 | Each select of the union holds only its own kind, and each id at most once, by the primary keys and the settings singleton |
| AuditLookup.UsersAreLabelled | backend/src/coffix/admin/queries.py:390-395 | A log about a user is labelled by the display name, or by the phone if there is none, and referenced by the phone |
| AuditLookup.NamedAreLabelled | backend/src/coffix/admin/queries.py:396-421 | Logs about orders, requests and SKUs are labelled and referenced by their code, about products and service types only labelled |
| AuditLookup.CategoriesAreLabelled | backend/src/coffix/admin/queries.py:403 | Logs about categories are labelled by name and referenced by slug |
| AuditLookup.ModelsAreLabelled | backend/src/coffix/admin/queries.py:408-413 | Logs about machine models are labelled by maker and name and referenced by name |
| AuditLookup.DeliveriesAreLabelled | backend/src/coffix/admin/queries.py:420-425 | Logs about deliveries are labelled by the title of the notification delivered |
| AuditLookup.SettingsAreLabelled | backend/src/coffix/admin/queries.py:426-431 | Logs about the shop settings match by having no id, and only then |
| AuditLookup.ActorsAreNamed | backend/src/coffix/admin/queries.py:433-437 | A log's row names its actor, and nobody if it has none or the user is gone |
| AuditLookup.GoneTargetsAreNull | backend/src/coffix/admin/queries.py:438-444 | A log of an unknown kind or a deleted target has no label and no reference |
| AuditLookup.JoinIsLookup | backend/src/coffix/admin/queries.py:433-444 | A log joined with the union and the users gives exactly one row: its looked-up actor and target, NULL where they are gone |
| AuditLookup.QueryIsLookup | backend/src/coffix/admin/queries.py:386-461 | The query's rows are ordered newest first, each is the per-row lookup, and each log that satisfies the filters in two-valued terms appears exactly once |
| AuditLookup.QueryIsTheOnlyAnswer | backend/src/coffix/admin/queries.py:386-461 | Any ordered rows that agree with the lookup and hold each wanted log once are the query's rows |
| AuditLookup.BlankSearchKeepsEveryLog | backend/src/coffix/admin/queries.py:446-453 | With a blank search every log satisfying the other filters appears exactly once, whatever became of its target |
| AuditLookup.PagesCoverTheQuery | backend/src/coffix/admin/queries.py:459-461 | Successive pages put together are the query's rows, without gap or repeat |
| Redaction.RedactedAt | backend/src/coffix/admin/schemas.py:151-187 | For every position of every document: gone below a sensitive key, the marker at one, the redaction of what was there elsewhere, and no position is added |
| Redaction.SurvivorsKeepShape | backend/src/coffix/admin/schemas.py:151-187 | Where no key on the way is sensitive, lists keep lengths, dictionaries their keys in order, leaves their text; at a sensitive key the value is the marker |
| Redaction.SensitiveExactly | backend/src/coffix/admin/schemas.py:157-182 | A key is sensitive if and only if it is `pan` or `otp`, or one of the eighteen words stands somewhere in it once separators are dropped |
| Redaction.PlainKeysAreHarmless | backend/src/coffix/admin/schemas.py:157-182 | Keys without the letters c, k, p, h, d and g are harmless, such as `role` and `reason` |
| Redaction.SafeDetailsIsIdempotent | backend/src/coffix/admin/schemas.py:151-187 | Redacting twice is redacting once |
| Redaction.SeparatorsDoNotHide | backend/src/coffix/admin/schemas.py:157-182 | Hyphens and underscores inside a sensitive word, and any text around it, do not hide it |
| ImageUploads.DeletesExactlyTheOrphans | admin/src/components/ImageUpload.tsx:19-66 | Read off the events alone, in every interleaving: nothing is deleted before the unmount, and from then on an id is deleted if and only if its upload completed, early or late, and the form neither retained it nor had it in its last list of attached images |
| ImageUploads.HeldImagesSurvive | admin/src/components/ImageUpload.tsx:24-33 | What the form retained, or had in its last list, before the unmount is never deleted by the component, whatever happens later |
| ImageUploads.StagesFollow | admin/src/components/ImageUpload.tsx:42-64 | Each stage of an upload leads to the next; a download that arrives while mounted is offered, and an id that arrives when the component is gone is discarded |
| ImageUploads.OfferedCanBeRetained | admin/src/components/ImageUpload.tsx:52-58 | An offered image can be retained from then on |
| ImageUploads.ImageUpload.DiscardOrphans | admin/src/components/ImageUpload.tsx:28-30 | The loop issues one delete for each uploaded id neither attached nor retained |
| ImageUploads.ImageUpload.CleanUp | admin/src/components/ImageUpload.tsx:19-66 | Unmounting is the machine's step and keeps the invariant; every other method of the class is proved equal to its step in the same way |
| Inbox.Screen.MarkAll | mobile/app/notifications.tsx:46-54 | When the walk ends normally every notification present at its start has been read, for any arrivals and any reads elsewhere between and during its requests; it fails exactly when one of its requests does, and stops only if the screen goes away |
| Inbox.Screen.ReadPage | mobile/app/notifications.tsx:50 | A page read to its end has exactly its unread entries requested, in order, and each of its entries read; it fails exactly when a request does, and stops only if the screen goes away |
| Inbox.PageRead | mobile/app/notifications.tsx:48-53 | Once a page has been read everything unread lies after it |
| ReducedMotion.KeptExactlyUnlessSubscribedAgain | mobile/src/platform/reducedMotion.ts:9-25 | An event keeps the invariant (one native subscription exactly while listeners exist; the value shown is the epoch's latest event, else its query's reply, else true) if and only if it is not the only listener subscribing once more |
| ReducedMotion.PreferenceIsAlwaysRight | mobile/src/platform/reducedMotion.ts:6-25 | The same over every run, with the set of active native subscriptions |
| ReducedMotion.ShownIsTheLatestAnswer | mobile/src/platform/reducedMotion.ts:6-25 | Read off the events alone, over every run: while anyone listens the value shown is that of the current epoch's last change, else of its query, else true; and true while nobody listens |
| ReducedMotion.StaleRepliesHaveNoEffect | mobile/src/platform/reducedMotion.ts:16-18 | A reply of an earlier epoch, or one overtaken by an event, changes nothing shown |
| ReducedMotion.Preferences.Subscribe | mobile/src/platform/reducedMotion.ts:9-25 | The first listener opens an epoch with its subscription and query, which is the machine's step and keeps the invariant; every other method of the class is proved equal to its step in the same way |
| IntakeSlots.ReadyExactlyWhenDisjoint | admin/src/features/config/ServiceIntakeSettings.tsx:29-32 | The form passes if and only if the urgency ids are distinct, every slot is non-empty and no minute of the day lies in two slots |
| IntakeSlots.TextOrderIsTimeOrder | admin/src/features/config/ServiceIntakeSettings.tsx:30-31 | Zero-padded times order as text exactly as in minutes |
| IntakeSlots.NeighboursDecide | admin/src/features/config/ServiceIntakeSettings.tsx:30-31 | For sorted slots comparing neighbours decides the condition on all pairs |
| ShippingFee.ParseAfterPrint | admin/src/features/config/ShopSettings.tsx:31-58 | Every amount from 0 to 2147483647 agorot is read back from its two-decimal text |
| ShippingFee.PrintIsTwoDecimals | admin/src/features/config/ShopSettings.tsx:31 | The text is the shekels, a point and two digits of agorot |
| ShippingFee.BlanksAroundDoNotMatter | admin/src/features/config/ShopSettings.tsx:54 | White space around an amount makes no difference |
| ShippingFee.DenotedIsParsed | admin/src/features/config/ShopSettings.tsx:54-58 | Every trimmed text of one to eight digits with at most two decimals is read as its amount, or refused only for exceeding the bound |
| ShippingFee.ParsedIsDenoted | admin/src/features/config/ShopSettings.tsx:54-58 | Conversely every text not refused as malformed has that form and amount |
| ShippingFee.ShortFormsAgree | admin/src/features/config/ShopSettings.tsx:57 | "n", "n.0" and "n.00" are one amount, and so are "n.d" and "n.d0" |
| Latency.P95IsThe95thPercentile | e2e/load/api.js:4-11 | At least 95% of the samples are at most the figure, and fewer than 95% are below it |
| Latency.Reads | e2e/load/api.js:21-25 | One client's strided loop visits exactly its stride |
| Latency.EveryIndexIsReadOnce | e2e/load/api.js:20-26 | For any number of clients and requests, all clients together read every index exactly once |

## Left out

Session and cookies

- Listeners, the query cache and the texts of errors: an error is the flag `failed`, payloads are opaque values.
- `fetch`, URL building, headers other than the bearer token, and the chain of promises inside one await.
- Access-token lifetime: a server may answer any status to any token.
- SessionLogouts.SoloLogoutSignsOut: requires that no other logout ends while it is pending, because `SessionLogouts.OverlappingLogoutsDoNotSignOut` shows that the claim is false otherwise; an overlapping login is allowed, and may sign in again afterwards.
- SessionRefreshes.RefreshIsLaunchedOnce: assumes that the server grants no token a second time, and does not count refreshes launched by uploads, which do not compare tokens.
- SessionRuns.ResultsBelongToOneSession: does not speak of the problem an upload reports, because its text is read after the last check.
- CookieCommands.NoTabTriggersReuse: excludes harmful losses and browsers without Web Locks, because it is false there; session expiry, inactive users and role checks of the server are one choice `allowed`. A request given up before its answer may still be served later, or never.

Time

- Asia/Jerusalem's actual transitions: a zone is any function with two values one hour apart, on whole minutes.
- Date texts of other shapes that an engine may parse by rules of its own: only `YYYY-MM-DDTHH:MM` parses. Engines differ on days such as 30 February, which the parameter `rollover` covers.
- Fractions of a second in a printed instant's input are dropped, as the minute format drops them; the empty text printed for a missing value.

Admin

- Commands run one at a time. Access changes lock only the target row (backend/src/coffix/admin/queries.py:572-600), so two concurrent ones could each remove the other's administrator; the claims about the last administrator are for serial commits.
- Request validation: reasons, and updates that change nothing. `AdminCommands.CorrectStock` takes quantities that are not negative.
- Reservation rows are identified by position and consumed in that order, not in order of SKU; metrics and the counts the stock commands return.
- Search, filter and paging of the inventory list, and the other admin queries.
- Galleries and the creation and deletion of catalog records. The replacement of a product's gallery sets a timestamp that is strictly later by construction (backend/src/coffix/catalog/service.py:339-342).
- Case folding and trimming are abstract functions in the audit query and in redaction; an escaped pattern search is containment of the text; tables are sequences with unique keys.
- The notification, payment and service-request services.

Smaller parts

- ImageUploads.HeldImagesSurvive: assumes the form attaches and retains ids it was offered, or ids that are not this component's, and that the server gives each upload a new id. Failing DELETE requests and a development-mode remount are left out; any number of uploads may overlap, where the component allows one.
- Inbox.Screen.MarkAll: the number of arrivals during a walk is finite but arbitrary, since with endless arrivals it never ends; the `locked` guard and the refresh of the screen are left out.
- IntakeSlots.ReadyExactlyWhenDisjoint: requires times as the form's required time inputs produce them, and takes `localeCompare` on such times as character order.
- Fee and percentile arithmetic is exact, without floating point; the load profile's threshold and its checks of the samples.
- Rendering, navigation, migrations, seeds and scripts.
