# A verified model of the time-tracking backend

A Dafny model of the parts of the backend where a mistake loses work time, pays a month twice or lets two
requests act as one: the protocols on shared rows, the accounting of a day, and the calendar and clock
arithmetic beneath both. Times are integers (milliseconds, or whole seconds where the code rounds), rows are
maps, and nothing here runs the original program.

**Protocols.** Each function is cut at its `await`s. A call or transaction is a stage, `Act` runs it to the next
await, `Step` applies one event to the whole state (a call going on, a crash, a failed write, the clock) and
`Run` any sequence of events, so a theorem about `Run` is about every interleaving. Beside each machine stands a
class with the source's own fields whose methods are written as the source is; their contracts say that a
method does exactly what its steps do when nothing interleaves.

| module | protocol |
|---|---|
| `Replay` | the idempotency table of the offline replay interceptor and its cleanup |
| `ReplayDay`, `ReplayDayRaces` | the automatically closed day that a replayed action reopens, and putting it back; several actions doing so at once |
| `Rotation` | refresh-token rotation: claim, mint, link, cache, replay, hand back |
| `MonthLock` | payroll month locks against decisions, writes that take no lock, and people who come in |
| `Organisations` | create, rename, delete, Admins, assignment, departments |
| `OrgCache` | the organisation cache whose fills race with invalidation |
| `CalendarRaces`, `CalendarCache` | calendar changes and settings saves against month locks, and the two caches against both |

**Accounting.** `LockedTime`, `Backfill` and `DailyActivity` follow one day from its samples to active and idle
seconds and 24 bars; `Focus` and `OnlineSessions` are the two other ways the same time is counted, the latter with its
calls cut at their statements too; `FailedLogins` is the bounded list of failures per address.

**Calendar and clock.** `Gregorian` is `Date.UTC` on day numbers (section 21.4.1 of ECMA-262), `TextOrder` and
`Decimals` are strings as `<` compares them and numbers as they are written, `DateKeys` and `Months` are the keys
"YYYY-MM-DD" and "YYYY-MM", `Timezone` turns wall-clock times into instants, `WeekPatterns` and `Calendar` are
the effective-dated week patterns and the calendar service. `Options` and `Clock` hold a datatype and a rounding
that several modules share.

What the code does differently from what its comments or documents say, and what is proved instead:

- A stale placeholder is taken over by read, delete and create as three steps, so exclusion on its event ends
  there: `Replay.StalePlaceholderIsTheGuard` says exactly when a second copy reaches its handler.
- The stored answer is deleted by a nightly cleanup 30 days after its placeholder was received, and a repeat without a
  time of its own is then run again: `Replay.RepeatAfterCleanUp`.
- A repeat whose X-Event-At cannot be read is answered 422 before the table is looked at, so it is not answered
  with the stored reply: `Replay.UnreadableRepeat`.
- Putting a reopened day back is not aware of another action that was meanwhile applied in it:
  `ReplayDayRaces.OpenIffLastReopened` says exactly when a day stays open, `RefusalClosesTheDayUnderAnother` and
  `SuccessThatReopenedIsClosedToo` show it closed under a success.
- A locked month is said never to change. Pending items and decisions are kept out, but items that need no
  approval are written without the lock, and a person in no organisation takes none and brings pending items along
  when assigned: `MonthLock.LockedMonthIsItsSnapshot` says what the month then is,
  `MonthLock.UnlockedWriteReachesLockedMonth`, `AssignmentReachesLockedMonth` and `SessionOpensInLockedMonth` show it. The calendar checks
  the lock row, builds on cached settings and writes later: `CalendarRaces.LockedDayStandsExactly` is the condition
  under which a day of a locked month stands, with a run for each of the four ways it does not.
- The comment on the settings cache says clearing it on write is enough. A read in flight fills it afterwards with what
  the row held before, and so it does to the calendar's cache: `CalendarCache.NoAnswerIsOlder` is how old an answer can
  be, and `CalendarCache.AnswerNobodyHad` one that was the calendar at no time.
- The comment on productivity says focus never exceeds active time. Backfilling and locked work break it:
  `Focus.FocusWithinActive` is the exact condition, `Focus.FocusCanExceedActive` the day that shows it.
- An ended day's totals are said to be frozen. At midnight they can change in two ways, an open last sample and a
  meeting nobody ended: `DailyActivity.TotalsAcrossMidnight`, with a day for each.
- The losers of a refresh race are to be given the winner's token. One that reads the row before the winner has linked
  its successor is refused instead, and one that reads the cache before the winner has written it, or more than the
  grace after that, gets a session of its own: `Rotation.SendingTheOldTokenAgain` says exactly when.
- A rotation in flight outlives signing out everywhere: `Rotation.RotationOutlivesSigningOut`.
- A close takes no lock, and what a session is extended by after the close has found it is not counted:
  `OnlineSessions.SplitClosesLose` says exactly what is lost.
- Walking a month by adding days lists the month only from the year 1000 on, since years are written without
  leading zeros: `Months.DatesOfMonth`. Shifting dates composes only from the year 100 on: `DateKeys.ReadsBack`.
- The zone conversion corrects its offset once, which is enough for any two offsets but not for three:
  `Timezone.ReadsTheAskedTime` and `Timezone.ThreeOffsetsCanMiss`.

## Model

| member | source | states |
|---|---|---|
| Replay.MutualExclusion | src/shared/http/replay.interceptor.ts:174-250 | in every interleaving in which no placeholder of the event goes stale or is cleaned up, whatever becomes of other events, two copies of it never both hold the placeholder or run the handler; and while the cleanup leaves its stored answer, two never settle |
| Replay.StoredAnswerStands | src/shared/http/replay.interceptor.ts:125-149 | once an answer is stored, nothing that happens to any event changes it for 30 days from when its placeholder was received, and every copy that begins later and within them answers exactly its status and body, or is refused before the lookup as unreadable |
| Replay.RepeatsAnswerTheFirst | src/shared/http/replay.interceptor.ts:174-190 | the same from the empty table over whole runs; only the run up to the first answer has to be without a stale or cleaned placeholder, and only of that event |
| Replay.RepeatAfterCleanUp | src/shared/http/agent-events.cleanup.ts:16-27 | what a repeat meets when the nightly cleanup has deleted the answer: sent with the time of its action it is refused as too old, and otherwise its handler runs again |
| Replay.UnreadableRepeat | src/shared/http/replay.interceptor.ts:165-180 | of the repeats of a settled event, the one answered 422 instead of the stored answer is exactly the one whose X-Event-At is read and is no date |
| Replay.StalePlaceholderIsTheGuard | src/shared/http/replay.interceptor.ts:158-262 | while a handler runs, a second copy, live or replayed at its own time, reaches its own handler if and only if the placeholder is at least two minutes old and the age, order, month and reopening checks let it through; before that it is answered 409 |
| Replay.TwoMinutesLater | src/shared/http/replay.interceptor.ts:182-190 | so, of a placeholder just received, the guard ends after two minutes and not a millisecond before |
| Replay.JournalOrder | src/shared/http/replay.interceptor.ts:192-220 | over any run, cleanups included, a request that began after an action of a compared kind settled acts at a time at most 60 s before that action's, replayed or live, unless it is held up until what it replays is over 30 days old |
| Replay.HeldUpCheckForgetsTheOrder | src/shared/http/agent-events.cleanup.ts:16-27 | where that ends: the cleanup passes before the check, which then finds nothing to compare with |
| Replay.NotAheadRun | src/shared/http/replay.interceptor.ts:192-203 | no stored event time is ever after the row was received, and none stored or fixed after the server's clock |
| Replay.OneOwnerRun | src/shared/http/replay.interceptor.ts:228-250 | the invariant behind exclusion, event by event: a placeholder in the table for every holder, one owner and, while it is kept, the stored answer for every settled copy |
| Replay.StoredIsAnAnswerBelow500 | src/shared/http/replay.interceptor.ts:125-149 | over every run, whatever is stored for an event is what a handler of that event answered in it, and never a failure of 500 or more |
| Replay.EndedStays | src/shared/http/replay.interceptor.ts:105-152 | what a call has ended with stays, and a crash leaves the table as it is, with the placeholder of a call that held it |
| Replay.BeginIs | src/shared/http/replay.interceptor.ts:158-262 | `begin` by the fields of the request and the table: refused, answered from the table or dropped exactly when `Verdict` says so and as it says, and otherwise exactly the placeholder, at the time the request gives but never ahead of the server |
| Replay.UuidIs | src/shared/http/replay.interceptor.ts:24 | which event ids are taken as such: eight, four, four, four and twelve hexadecimal digits with dashes between |
| Replay.ReplayInterceptor.Begin | src/shared/http/replay.interceptor.ts:158-262 | `begin` run straight through returns and leaves in the table exactly what its awaited steps do, and touches the day only by a reopening it tells of |
| Replay.ReplayInterceptor.Place | src/shared/http/replay.interceptor.ts:228-261 | the placeholder, the lost race and the reopened day, as the last steps of `begin` |
| Replay.ReplayInterceptor.Intercept | src/shared/http/replay.interceptor.ts:105-152 | the whole pipeline: the handler runs exactly when nothing else answers; then, no write failing, a success and a failure below 500 are stored, and end, as they are and one from 500 on leaves no row; a failed action, reopened day or not, leaves the person's day exactly as it was unless the write that puts it back fails too, and a successful replay leaves it reopened |
| ReplayDay.ReopenKeepsOneOpen | src/shared/http/replay.interceptor.ts:271-326 | reopening leaves at most one open session if there was at most one, and exactly one when it reopened |
| ReplayDay.OpenCountUpdate | src/shared/http/replay.interceptor.ts:290-291 | rewriting one session changes the number of open ones by exactly that session's change |
| ReplayDay.LatestSession | src/shared/http/replay.interceptor.ts:272-283 | the session looked at is one that no other session started after |
| ReplayDay.RestoreUndoesReopen | src/shared/http/replay.interceptor.ts:333-351 | after an action that failed, the session's end, reason and source and its day's end mark are the old ones exactly, and everything the action wrote elsewhere stays |
| ReplayDay.RefusedActionLeavesTheDay | src/shared/http/replay.interceptor.ts:271-351 | reopen then restore is the identity on the whole day when the action wrote nothing |
| ReplayDay.WorkDays.ReopenAutoClosed | src/shared/http/replay.interceptor.ts:271-326 | reopens if and only if the latest session was closed automatically, before the event, with none open, the event within 20 h of its start and not past the day's latest end; then that session's end, its source and its day's end mark are all that is written |
| ReplayDay.WorkDays.RefusedAction | src/shared/http/replay.interceptor.ts:133-141 | a replayed action that is refused changes nothing of the person's day |
| ReplayDayRaces.RefusedActionsLeaveTheDay | src/shared/http/replay.interceptor.ts:271-351 | in every interleaving of replayed actions, each `await` a step and writes failing: once all have ended, none that succeeded had reopened the day itself and none failed to put it back, every session field and day-end mark is what it was |
| ReplayDayRaces.StepsAreReopen | src/shared/http/replay.interceptor.ts:271-326 | with nothing between them the steps of a reopening are that one reopening, or none |
| ReplayDayRaces.ActionEnds | src/shared/http/replay.interceptor.ts:133-141 | an action that fails puts back what it reopened, and one that succeeds does not |
| ReplayDayRaces.BreakIs | src/shared/http/replay.interceptor.ts:305-351 | a write that fails leaves the day alone: the action goes on without a reopening, or its restoring is lost |
| ReplayDayRaces.OneOpenThroughout | src/shared/http/replay.interceptor.ts:271-326 | at no moment of any such interleaving has the person a second open session |
| ReplayDayRaces.OpenIffLastReopened | src/shared/http/replay.interceptor.ts:271-351 | at every moment of every interleaving a day that had closed by itself is open if and only if the last step that reopened it or put it back was a reopening, whichever action made it, and its mark is off if and only if the last that wrote it took it off; nothing else ever differs. So a success keeps its day open exactly when no refused action puts it back afterwards |
| ReplayDayRaces.RefusalClosesTheDayUnderAnother | src/shared/http/replay.interceptor.ts:136-144 | from the start: an action that arrives in a day another one has reopened succeeds there, and the other's refusal closes the day under it |
| ReplayDayRaces.SuccessThatReopenedIsClosedToo | src/shared/http/replay.interceptor.ts:271-351 | and so it does to a success that had reopened the same day itself |
| Rotation.OneWinner | src/modules/auth/infrastructure/prisma-refresh-token.repository.ts:64-139 | in every interleaving, failures included, at most one call of one token returns a token through the claim, and that token is the recorded successor |
| Rotation.LosersGetTheWinnersToken | src/modules/auth/infrastructure/prisma-refresh-token.repository.ts:141-171 | every call answered from the cache is given the token of the one call that claimed the old one, whether that call has returned, is about to, or died after writing the cache |
| Rotation.SessionsGrowOnlyByAdds | src/modules/auth/infrastructure/prisma-refresh-token.repository.ts:47-171 | over any run a person's live tokens grow by at most one for each sign-in, cache-miss fallback and claim handed back after an unlinked successor |
| Rotation.SessionsRun | src/modules/auth/infrastructure/prisma-refresh-token.repository.ts:64-171 | live tokens plus claims in flight grow by no more than that, from any reachable state |
| Rotation.OneClaimantRun | src/modules/auth/infrastructure/prisma-refresh-token.repository.ts:79-139 | the invariant: one claimant per token, its row revoked while claimed, and the cache holding only what a winner returned |
| Rotation.RotatesOnce | src/modules/auth/infrastructure/prisma-refresh-token.repository.ts:64-139 | undisturbed, a rotation revokes the old token, links and caches one successor and answers it |
| Rotation.RotateAnswers | src/modules/auth/infrastructure/prisma-refresh-token.repository.ts:64-171 | what every token is answered, undisturbed, by the fields of its row and the cache, and all that is written |
| Rotation.FailedRotationGivesTheTokenBack | src/modules/auth/infrastructure/prisma-refresh-token.repository.ts:116-124 | when the successor cannot be minted or linked the old token is as it was, nothing is cached, and what was minted stays as a second live token |
| Rotation.SendingTheOldTokenAgain | src/modules/auth/infrastructure/prisma-refresh-token.repository.ts:141-171 | for every call that does not get the claim, over every interleaving and any delays from the claim on, the winner dying or failing to cache included, as long as it does not hand the claim back: refused exactly when it reads the row before the link or arrives more than the grace after the claim; else given the winner's token exactly when it reads the cache after the write and less than the grace after that; else a session of its own |
| Rotation.UnlinkedIsRefused | src/modules/auth/infrastructure/prisma-refresh-token.repository.ts:116-152 | and when the claim is handed back, a call that did not get it is refused unless the token is claimed anew and linked before it reads the row |
| Rotation.EarlyCallIsRefused | src/modules/auth/infrastructure/prisma-refresh-token.repository.ts:147-152 | refused inside the grace: a call that reads the row while the winner is minting or linking |
| Rotation.EarlyCallHasItsOwn | src/modules/auth/infrastructure/prisma-refresh-token.repository.ts:154-170 | a second session inside the grace: a call that reads the cache between the link and the cache write |
| Rotation.ClaimRotates | src/modules/auth/infrastructure/prisma-refresh-token.repository.ts:73-83 | a claim of a token without successor is where this begins: no other call has a claim of it and nothing is cached for it |
| Rotation.CacheWritten | src/modules/auth/infrastructure/prisma-refresh-token.repository.ts:104-119 | a rotation leaves its entry until the grace after the instant of its cache write, not of its claim, and stays the only claimant |
| Rotation.AfterRotation | src/modules/auth/infrastructure/prisma-refresh-token.repository.ts:141-171 | the case of no delays, with what it leaves: only the fallback writes a row |
| Rotation.SentAgainLater | src/modules/auth/infrastructure/prisma-refresh-token.repository.ts:141-171 | a token rotated at one instant and sent again later: its successor within 30 s, a session of its own at their very end, refused afterwards |
| Rotation.SignsOutOneUser | src/modules/auth/infrastructure/prisma-refresh-token.repository.ts:190-196 | signing out everywhere revokes, at its own instant, exactly the rows of that user that were not revoked; every other row, and every other person's sessions, are as they were |
| Rotation.SignsOutOneToken | src/modules/auth/infrastructure/prisma-refresh-token.repository.ts:206-211 | signing out revokes exactly the token that is sent |
| Rotation.PurgesTheDead | src/modules/auth/infrastructure/prisma-refresh-token.repository.ts:173-180 | the purge deletes exactly the rows that expired or were revoked before the cutoff |
| Rotation.SignsIn | src/modules/auth/infrastructure/prisma-refresh-token.repository.ts:47-62 | signing in adds one live token nobody has had to that person's sessions and to nobody else's |
| Rotation.AfterSigningOutEverywhere | src/modules/auth/infrastructure/prisma-refresh-token.repository.ts:190-196 | signing out everywhere ends every live token, and at most one comes back for each rotation then in flight and each later addition |
| Rotation.RotationOutlivesSigningOut | src/modules/auth/infrastructure/prisma-refresh-token.repository.ts:85-126 | and each rotation in flight does bring one back: its successor, or the old token when the claim is being handed back |
| Rotation.RefreshTokens.Issue | src/modules/auth/infrastructure/prisma-refresh-token.repository.ts:47-62 | a token nobody has had: the user's one new live token, claimable until its time to live has passed; every other token, its owner and its state, and the cache are as before |
| Rotation.RefreshTokens.Rotate | src/modules/auth/infrastructure/prisma-refresh-token.repository.ts:64-139 | `rotate` run straight through, with any set of failing operations, is its steps; with none it answers and writes by the fields of the row and the cache |
| Rotation.RefreshTokens.TolerateRace | src/modules/auth/infrastructure/prisma-refresh-token.repository.ts:141-171 | refusal, replay from the cache or a fresh session, as its steps give |
| MonthLock.LockedMonthIsItsSnapshot | src/modules/reports/infrastructure/prisma-report.store.ts:88-130 | in every interleaving with decisions, unlocked writes and assignments, while a month's lock row is committed its items are exactly the snapshot and what was written without the lock since it was built, what is pending in it came with an assignment since the count, and no decision is past its check |
| MonthLock.NothingPendingInLockedMonth | src/modules/reports/infrastructure/prisma-report.store.ts:105-117 | so in every run in which nobody with items in it is assigned, nothing in a locked month is pending |
| MonthLock.AssignmentReachesLockedMonth | src/modules/organisations/infrastructure/prisma-organisation.store.ts:403-453 | in any run, assigning a person who was in no organisation brings a pending item into a locked month, which is then not its snapshot any longer |
| MonthLock.LockedMonthNeverChanges | src/shared/database/month-lock.ts:43-75 | from the lock to the unlock the month changes by the unlocked writes and assignments to it and by nothing else |
| MonthLock.UnlockedWriteReachesLockedMonth | src/modules/worktime/infrastructure/prisma-meeting-record.repository.ts:320-337 | in any run, an item that needs no approval is added to a locked month, which is then not its snapshot any longer |
| MonthLock.SessionOpensInLockedMonth | src/modules/reports/infrastructure/prisma-report.store.ts:93-130 | nor are work sessions kept out: however many start after the transaction has looked for open ones, it locks the month with them in it |
| MonthLock.GuardedRun | src/shared/database/month-lock.ts:43-75 | the lock discipline kept over every run: shared and exclusive holders never meet in one month |
| MonthLock.NobodyBesideALocker | src/shared/database/month-lock.ts:43-75 | so in no run is anybody deciding, locking or unlocking in a month beside a transaction that locks or unlocks it |
| MonthLock.WaitsOnlyForItsMonth | src/shared/database/month-lock.ts:43-75 | and a transaction waits only for one of the same month that holds it against it: decisions never wait for decisions |
| MonthLock.DecisionAnswers | src/shared/database/month-lock.ts:61-75 | a decision on a locked month is refused and writes nothing; on an open one every item it names is written or removed as it says, and no other |
| MonthLock.LateWriteIs | src/modules/organisations/infrastructure/prisma-organisation.store.ts:403-453 | the same of an assignment, and of an unlocked write unless it would make an item pending |
| MonthLock.EndedStays | src/modules/reports/infrastructure/prisma-report.store.ts:88-138 | what has ended stays as it ended, and a transaction given up writes nothing |
| MonthLock.LockRowStays | src/modules/reports/infrastructure/prisma-report.store.ts:88-138 | only a committed unlock removes a lock row or changes its snapshot |
| MonthLock.ReportStore.LockMonth | src/modules/reports/infrastructure/prisma-report.store.ts:88-130 | already locked; else refused for open sessions with their number; else for pending items with theirs; else a row holding the month as it stands: in the first three nothing is written, in the last only the row, and in no other month anything |
| MonthLock.ReportStore.CountPending | src/modules/reports/infrastructure/prisma-report.store.ts:105-117 | the number of the month's items that are pending, which is zero exactly when it is settled |
| MonthLock.ReportStore.UnlockMonth | src/modules/reports/infrastructure/prisma-report.store.ts:132-138 | the lock row is gone, whether there was one is answered, and the items and sessions are as they were |
| Organisations.OrganisationsStaySound | src/modules/organisations/infrastructure/prisma-organisation.store.ts:77-179 | in every interleaving live names stay distinct under the name key, no organisation has two Admins, a deleted one holds nobody and no department, e-mails stay distinct |
| Organisations.DeletedForGood | src/shared/database/org-lock.ts:13-22 | once deleted, an organisation never again holds a person or department that is not deleted, whatever was in flight |
| Organisations.GuardedRun | src/modules/organisations/infrastructure/prisma-organisation.store.ts:341-453 | what each transaction found out under its lock stays true to its commit |
| Organisations.NobodyBesideAHolder | src/modules/organisations/infrastructure/prisma-organisation.store.ts:77-145 | so in no run do two transactions create or rename at once, or two work on one organisation |
| Organisations.WaitsOnlyForItsLock | src/modules/organisations/infrastructure/prisma-organisation.store.ts:77-145 | and a transaction waits only for one that holds the very lock it asks for |
| Organisations.ClearedDeleteFoundNobody | src/modules/organisations/infrastructure/prisma-organisation.store.ts:142-145 | in every run a delete goes on exactly when nobody active is in the organisation at that step |
| Organisations.EndedStays | src/modules/organisations/infrastructure/prisma-organisation.store.ts:77-145 | what has ended stays as it ended, and a transaction given up writes nothing |
| Organisations.HireAnswers | src/modules/users/infrastructure/repositories/postgres-user.repository.ts:184-224 | hiring: refused exactly for an organisation that is not live or an e-mail in use, deleted people's included; otherwise one new active person |
| Organisations.CreateDepartmentAnswers | src/modules/departments/application/departments.service.ts:100-121 | a new department: the transaction is refused for an organisation that is not live; otherwise one new row of it and nothing else |
| Organisations.GuardedEdit | src/modules/organisations/infrastructure/prisma-organisation.store.ts:135-179 | activating, deactivating and removing people breaks no promise and nothing a transaction relies on |
| Organisations.EditsOnePerson | src/modules/organisations/infrastructure/prisma-organisation.store.ts:135-179 | each of them writes that one field of that one person |
| Organisations.OrganisationStore.NameIsTaken | src/modules/organisations/domain/organisation.rules.ts:27-34 | true exactly when another live organisation has that name under the key |
| Organisations.OrganisationStore.CreateOrganisation | src/modules/organisations/infrastructure/prisma-organisation.store.ts:82-102 | refused exactly when a live organisation has the name under the key; otherwise one new row and nothing else |
| Organisations.OrganisationStore.RenameOrganisation | src/modules/organisations/infrastructure/prisma-organisation.store.ts:104-128 | refused exactly when it is not live or another live one has the name; otherwise its name and nothing else is written |
| Organisations.OrganisationStore.SoftDelete | src/modules/organisations/infrastructure/prisma-organisation.store.ts:135-179 | refused, with nothing written, exactly when it is not live or somebody active belongs to it; otherwise exactly its people, its departments and itself are marked deleted |
| Organisations.OrganisationStore.CreateOrgAdmin | src/modules/organisations/infrastructure/prisma-organisation.store.ts:341-401 | refused exactly for an e-mail in use, screened before the transaction, an organisation that is not live, or one with an Admin; otherwise one new active Admin and nothing else |
| Organisations.OrganisationStore.AssignPerson | src/modules/organisations/infrastructure/prisma-organisation.store.ts:403-453 | refused exactly when the organisation or the person is not live, the person is in another live one, or is an Admin and it has one; otherwise the person's organisation and nothing else is written |
| OrgCache.AnswersFollowAnnouncements | src/modules/auth/infrastructure/prisma-auth-user-reader.ts:80-103 | every answer is the organisation's state in a version no older than the one announced when the call began |
| OrgCache.AnswersAreRecent | src/modules/auth/infrastructure/prisma-auth-user-reader.ts:80-94 | announced or not, an answer is the organisation's state in a version that was still the latest 30 s before the call began, or later |
| OrgCache.ReadIsReused | src/modules/auth/infrastructure/prisma-auth-user-reader.ts:80-94 | what a call has read answers the calls of the next 30 s after it began, when nothing was announced meanwhile |
| OrgCache.AnnouncedChangeIsSeen | src/modules/auth/infrastructure/prisma-auth-user-reader.ts:80-103 | after a deletion or creation is announced, no later call answers from before it, whatever reads were in flight |
| OrgCache.ChangeIsSeen | src/modules/auth/infrastructure/prisma-auth-user-reader.ts:80-103 | step by step: once a change has committed and been announced, every call that begins afterwards answers what it left, whatever reads and other commits run before, between and since |
| OrgCache.FreshRun | src/modules/auth/infrastructure/prisma-auth-user-reader.ts:80-103 | each cached entry comes from a read no older than the last announced change of that organisation |
| OrgCache.AuthUserReader.Cached | src/modules/auth/infrastructure/prisma-auth-user-reader.ts:80-83 | a hit is the organisation's state in a version from the last announced one on |
| OrgCache.AuthUserReader.Keep | src/modules/auth/infrastructure/prisma-auth-user-reader.ts:84-94 | the read is cached exactly when nothing was announced since the call began, so the cache still answers nothing older than the last announcement; other entries stay, or all go when there are over 1000 |
| OrgCache.AuthUserReader.ForgetOrg | src/modules/auth/infrastructure/prisma-auth-user-reader.ts:97-103 | the entry is gone, the change counts as announced, and no call that began before can keep its read |
| LockedTime.ByHour | src/modules/activity/application/locked-time.util.ts:26-40 | the loop ends and lists the seconds of the window's pieces by local hour |
| LockedTime.PiecesTile | src/modules/activity/application/locked-time.util.ts:26-40 | the pieces start where the window starts, follow on, end where it ends, and lie each inside one local hour |
| LockedTime.InstantInItsHour | src/modules/activity/application/locked-time.util.ts:26-40 | every instant of the window is counted in the bar of its own local hour |
| LockedTime.HourIs | src/modules/activity/application/locked-time.util.ts:26-40 | which is the one whose sixty minutes of its local day it lies in |
| LockedTime.WithinOneHour | src/modules/activity/application/locked-time.util.ts:26-40 | time inside one local hour is listed once, in full, under that hour |
| LockedTime.SplitAtTheHour | src/modules/activity/application/locked-time.util.ts:26-40 | and time across an hour's end is what comes before it, then what comes after |
| LockedTime.TotalNearLength | src/modules/activity/application/locked-time.util.ts:26-40 | the seconds add up to the window's length within one second |
| LockedTime.TotalExact | src/modules/activity/application/locked-time.util.ts:26-40 | and exactly, at whole-second bounds |
| LockedTime.FillLockedGaps | src/modules/activity/application/locked-time.util.ts:65-86 | what every gap of the day is owed, gap by gap |
| LockedTime.FillsAreAllGaps | src/modules/activity/application/locked-time.util.ts:65-86 | every gap its own, from the first to the last, and nothing else |
| LockedTime.GapOwedOnlyWhenLocked | src/modules/activity/application/locked-time.util.ts:68-83 | a gap is owed something only when its opening sample is locked, by flag or lock screen, and it is over 150 s and at most 4 h, and then the time from what that sample accounts for to the next |
| LockedTime.GapCountedOnce | src/modules/activity/application/locked-time.util.ts:65-86 | a gap's recorded and recovered seconds never exceed it beyond rounding, and fill it when its opening sample is locked and it is over 150 s and at most 4 h |
| LockedTime.GapCountedExactly | src/modules/activity/application/locked-time.util.ts:65-86 | the same without rounding at whole seconds |
| LockedTime.SpanCountedOnce | src/modules/activity/application/locked-time.util.ts:65-86 | over a day recorded and recovered seconds stay within the sample span and one second a gap |
| LockedTime.SpanCountedExactly | src/modules/activity/application/locked-time.util.ts:65-86 | and within the span itself at whole seconds |
| Backfill.BackfillIdleGrace | src/modules/activity/application/activity.mapper.ts:305-328 | the in-place walk leaves the array as the closed description of what each slice gives up |
| Backfill.ReclaimLeadIn | src/modules/activity/application/activity.mapper.ts:314-326 | one stretch's walk back takes from its run exactly what the budget leaves at each slice, and nothing else |
| Backfill.StretchTakesTheThreshold | src/modules/activity/application/activity.mapper.ts:305-328 | the work right before an unlocked idle stretch, outside meetings, loses exactly the smaller of 300 s and its active time |
| Backfill.LatestFirst | src/modules/activity/application/activity.mapper.ts:314-326 | a slice gives up only what the threshold leaves after all later slices of its run |
| Backfill.OnlyWorkBeforeIsTouched | src/modules/activity/application/activity.mapper.ts:305-328 | time in a meeting, time flagged idle and slices without active time are never touched; what is touched lies before one unlocked idle stretch, with nothing but work outside meetings in between, and only moves from active to idle |
| DailyActivity.ComputeDaily | src/modules/activity/application/activity.mapper.ts:140-238 | totals and all 24 bars are those of the backfilled slices and the recovered idle, the bars add up to the totals, and the remainder or surplus over the working basis is right |
| DailyActivity.AddUp | src/modules/activity/application/activity.mapper.ts:192-213 | each bar is its own hour's share and the bars sum to active and idle |
| DailyActivity.CutSlices | src/modules/activity/application/activity.mapper.ts:166-190 | one slice for each sample that lasts, split by idle, lock and meeting |
| DailyActivity.SampleIs | src/modules/activity/application/activity.mapper.ts:166-190 | what one sample comes to, by its fields: how long it lasts, whether it is idle, locked or in a meeting, from the meeting's start up to but not at its end |
| DailyActivity.SliceInItsBar | src/modules/activity/application/activity.mapper.ts:192-213 | seconds added to a slice come to the bar of its hour and to no other |
| DailyActivity.FillInItsBar | src/modules/activity/application/activity.mapper.ts:192-213 | and so do seconds recovered from a gap |
| DailyActivity.FrameIs | src/modules/activity/application/activity.mapper.ts:149-153 | a day is today within its 24 local hours, and live figures stop at its end or now, whichever is earlier |
| DailyActivity.BackfillConserves | src/modules/activity/application/activity.mapper.ts:305-328 | backfilling moves seconds from active to idle and makes none |
| DailyActivity.DaySumIs | src/modules/activity/application/activity.mapper.ts:140-213 | a day's active and idle are its recorded durations, the live tail and the recovered gaps |
| DailyActivity.DayCountedOnce | src/modules/activity/application/activity.mapper.ts:159-213 | active and idle together never exceed the sample span and a 150 s tail, beyond one second of rounding a gap |
| DailyActivity.MidnightDropsTheOpenTail | src/modules/activity/application/activity.mapper.ts:149-168 | active and idle together lose exactly the live tail of a sample that was never closed |
| DailyActivity.SameSlicesAcross | src/modules/activity/application/activity.mapper.ts:166-190 | a day is cut alike on both sides of midnight if and only if it has no live tail and no lasting sample lies only in a meeting nobody ended |
| DailyActivity.FrozenAcrossMidnight | src/modules/activity/application/activity.mapper.ts:140-238 | then every figure of it, each bar included, is the same |
| DailyActivity.MidnightShifts | src/modules/activity/application/activity.mapper.ts:291-303 | without a live tail, active seconds lose the inactive time of unended meetings less what backfilling takes back, and idle gains as much |
| DailyActivity.TotalsAcrossMidnight | src/modules/activity/application/activity.mapper.ts:140-213 | the totals are the same on both sides if and only if there is no live tail and those two are equal |
| DailyActivity.EndedDayIsFrozen | src/modules/activity/application/activity.mapper.ts:40-42 | an ended day's figures do not move with the clock on one side of midnight, nor across it under that condition |
| DailyActivity.OpenTailIsDropped | src/modules/activity/application/activity.mapper.ts:56-58 | the day that loses its open tail: 100 active seconds, then none |
| DailyActivity.OpenMeetingIsDropped | src/modules/activity/application/activity.mapper.ts:291-303 | the day whose one closed sample lies in an unended meeting: 100 active seconds, then 100 idle |
| Focus.DetectFocusSessions | src/modules/analytics/application/analytics.util.ts:117-160 | the one pass returns exactly the sessions of the long enough runs, in order |
| Focus.RunsAreMaximal | src/modules/analytics/application/analytics.util.ts:117-160 | those runs are exactly the maximal ones of working samples with gaps of at most 150 s |
| Focus.KeptAre | src/modules/analytics/application/analytics.util.ts:117-160 | what the pass keeps of runs: exactly those with the minimum of recorded time, from the first sample to the end of the last |
| Focus.RunsApart | src/modules/analytics/application/analytics.util.ts:117-160 | in order and with no sample in common |
| Focus.FocusWithinNonIdle | src/modules/analytics/application/analytics.util.ts:117-160 | focus never exceeds the clamped time that is not flagged idle |
| Focus.SessionsApart | src/modules/analytics/application/analytics.util.ts:117-160 | when samples do not overlap, sessions are disjoint and none claims more than its own span |
| Focus.FocusAgainstActive | src/modules/analytics/application/analytics.util.ts:83-85 | at any minimum, focus exceeds active time by at most what backfilling moved and locked time not flagged idle |
| Focus.FocusIs | src/modules/analytics/application/analytics.util.ts:117-160 | with no minimum focus is exactly active time, with what backfilling moved and locked work, less the idle time of meetings and a working live tail |
| Focus.FocusWithinActive | src/modules/analytics/application/analytics.util.ts:83-85 | so at any minimum, the 1500 s of the code included, focus is within active time if and only if the first two are no more than the last two and the work of the runs too short |
| Focus.FocusWithinActiveAlways | src/modules/analytics/application/analytics.util.ts:83-85 | and at every minimum at once if and only if that holds without the short runs |
| Focus.FocusCanExceedActive | src/modules/analytics/application/analytics.util.ts:83-85 | the day on which it does: 1800 s of focus, 1500 s active |
| OnlineSessions.SessionsCountTheGaps | src/modules/presence/infrastructure/prisma-online-session.repository.ts:12-66 | over any run of heartbeats and closes at most one session is open, the last, and the sessions of a date add up to exactly the gaps within grace, on that date, not cut by a close |
| OnlineSessions.SessionsDisjoint | src/modules/presence/infrastructure/prisma-online-session.repository.ts:12-66 | with times in order no two sessions overlap |
| OnlineSessions.SecondsNearMs | src/modules/presence/infrastructure/prisma-online-session.repository.ts:68-71 | a date's seconds are its milliseconds to within half a second a session |
| OnlineSessions.SecondsAre | src/modules/presence/infrastructure/prisma-online-session.repository.ts:113-117 | a session counts for the second nearest to its time up to its end, or up to its last-seen time while it is open, whether or not a length is recorded |
| OnlineSessions.OnlineSessionRepository.Heartbeat | src/modules/presence/infrastructure/prisma-online-session.repository.ts:12-51 | extends, closes or opens so that the rows are those of the log with this heartbeat |
| OnlineSessions.OnlineSessionRepository.CloseOpenForUser | src/modules/presence/infrastructure/prisma-online-session.repository.ts:53-66 | the rows are those of the log with this close |
| OnlineSessions.OneOpenThroughout | src/modules/presence/infrastructure/prisma-online-session.repository.ts:12-66 | with the find and the write of every heartbeat and close as two steps, in every interleaving at most one session is open, the last |
| OnlineSessions.SplitCloseIsClose | src/modules/presence/infrastructure/prisma-online-session.repository.ts:53-66 | with nothing between them the two are one close |
| OnlineSessions.SplitBeatIsBeat | src/modules/presence/infrastructure/prisma-online-session.repository.ts:12-51 | and one heartbeat |
| OnlineSessions.CallsEnd | src/modules/presence/infrastructure/prisma-online-session.repository.ts:12-66 | a heartbeat that fails writes nothing and lets the next one begin, and a close is over when it has written |
| OnlineSessions.SplitClosesLose | src/modules/presence/infrastructure/prisma-online-session.repository.ts:12-66 | in every such interleaving a date's sessions count for exactly the gaps within grace, on that date, not cut by a close, less what sessions were extended by after the close that wrote them last had found them |
| OnlineSessions.GapsCountedUnlessExtended | src/modules/presence/infrastructure/prisma-online-session.repository.ts:12-66 | so with heartbeats in order they never count for more than the gaps, and for all of them if and only if no session of the date was so extended |
| OnlineSessions.SplitSecondsNearMs | src/modules/presence/infrastructure/prisma-online-session.repository.ts:68-71 | and the seconds are that to within half a second a session |
| OnlineSessions.HeartbeatBetweenIsLost | src/modules/presence/infrastructure/prisma-online-session.repository.ts:58-65 | a heartbeat between the two statements of a close is lost: the session ends, and counts, as it was found |
| OnlineSessions.CloseBetweenLosesTheHeartbeat | src/modules/presence/infrastructure/prisma-online-session.repository.ts:22-34 | and so is a heartbeat that a close comes between: it extends a session that has ended |
| OnlineSessions.OnlineSessionRepository.SumSecondsForUserByDate | src/modules/presence/infrastructure/prisma-online-session.repository.ts:68-71 | the sum is the counted gaps, rounded once a session, and exactly them at whole seconds |
| FailedLogins.AnswersForAll | src/modules/auth/application/failed-logins-by-address.service.ts:37-43 | the bounded list blocks exactly when at least the limit of all failures ever recorded lie in the window, and the minutes answered are the fewest that unblock |
| FailedLogins.RecordedKeeps | src/modules/auth/application/failed-logins-by-address.service.ts:45-52 | dropping what is old or past the limit keeps the list sufficient |
| FailedLogins.RecordTracks | src/modules/auth/application/failed-logins-by-address.service.ts:45-52 | for every address at once, the one recorded and the others |
| FailedLogins.PruneTracks | src/modules/auth/application/failed-logins-by-address.service.ts:54-60 | forgetting an address whose latest failure is out of the window changes no answer |
| FailedLogins.FailedLoginsByAddress.BlockedForMin | src/modules/auth/application/failed-logins-by-address.service.ts:37-43 | answered from the bounded list, about the whole history: blocked exactly while the limit of failures lies in the window, for the fewest minutes after which it no longer does |
| FailedLogins.FailedLoginsByAddress.RecordFailure | src/modules/auth/application/failed-logins-by-address.service.ts:45-52 | the history grows by this failure, every list still answers for its history, and other addresses are forgotten only over 50000, and then all that have no failure in the window |
| FailedLogins.FailedLoginsByAddress.Prune | src/modules/auth/application/failed-logins-by-address.service.ts:54-60 | exactly the addresses without a failure in the window are dropped, and no answer changes |
| Gregorian.DayFromYearIsEcma | src/shared/utils/timezone.ts:132-137 | counting years day by day is the standard's closed formula, for every year |
| Gregorian.CivilOfDayNumber | src/shared/utils/timezone.ts:132-137 | a date and its day number determine each other |
| Gregorian.BeforeIffEarlier | src/shared/utils/timezone.ts:187-191 | day numbers are in the order of the calendar |
| Gregorian.LastOfMonth | src/modules/reports/domain/report-builder.ts:294-298 | day 0 of the next month is the last of this one |
| Gregorian.MonthsStart | src/shared/utils/timezone.ts:132-137 | the months start on the days of the year that the standard lists |
| Gregorian.NextDateIsNext | src/shared/utils/timezone.ts:187-191 | one day more is the next date: of the month, of the year, or New Year |
| Gregorian.TwoDigitYearMoves | src/shared/utils/timezone.ts:132-137 | years 0 to 99 never come back as themselves from `Date.UTC` |
| DateKeys.ValidKeysAre | src/shared/utils/timezone.ts:132-137 | a key is accepted exactly when it has the shape, names a real date, and its year is at least 100 |
| DateKeys.AddDaysComposes | src/shared/utils/timezone.ts:187-191 | shifting by a and then b days is shifting by a + b if and only if the first shift stays in years from 100 on |
| DateKeys.AddDaysInverts | src/shared/utils/timezone.ts:187-191 | shifting there and back gives the accepted key itself if and only if the shift stays in years from 100 on and the key's own year is at least 1000 |
| DateKeys.ReadsBack | src/shared/utils/timezone.ts:187-191 | a day's key is read back as that day exactly from the year 100 on: years 0 to 99 come back in the 1900s, negative ones as a month of 1900 or later |
| DateKeys.Unshifted | src/shared/utils/timezone.ts:187-191 | an accepted key shifted by no days is itself exactly from the year 1000 on |
| DateKeys.WeekdayAdvances | src/shared/utils/timezone.ts:194-198 | the ISO weekday goes on by one, from 7 to 1, each day, for every year from 100 on |
| DateKeys.EpochWasThursday | src/shared/utils/timezone.ts:194-198 | the weekdays are anchored: 1970-01-01 was a Thursday |
| DateKeys.KeyOrder | src/modules/calendar/domain/calendar.rules.ts:48-51 | keys compare as strings exactly as their numbers |
| DateKeys.KeyOrderIsChronological | src/modules/calendar/domain/calendar.rules.ts:48-51 | so string order on valid keys is the order of the days |
| Months.DatesOfMonth | src/modules/calendar/domain/calendar.rules.ts:140-148 | the walk ends and lists exactly the closed form from the year 1000 on, and only the first date before |
| Months.MonthDatesAre | src/modules/reports/domain/report-builder.ts:294-298 | the closed form has as many dates as the month has days |
| Months.MonthsAre | src/modules/calendar/domain/calendar.rules.ts:171-173 | the accepted months of years from 100 on are exactly those whose first day is an accepted date |
| Months.DateOfReads | src/modules/reports/domain/report-builder.ts:294-298 | each of them reads as that day of that month |
| Months.WithinMonth | src/modules/calendar/domain/calendar.rules.ts:143-146 | inside a month the day after a key is the month's next key |
| Months.MonthEnds | src/modules/calendar/domain/calendar.rules.ts:143-146 | the day after the last key does not start with the month |
| Timezone.ReadsTheAskedTime | src/shared/utils/timezone.ts:160-179 | for any zone with at most two offsets nearby, the answer's wall clock reads the asked time whenever some instant's does |
| Timezone.RightUnlessSkipped | src/shared/utils/timezone.ts:160-179 | around one transition, the answer is right exactly unless the clocks jump over the asked time |
| Timezone.SkippedTime | src/shared/utils/timezone.ts:160-179 | a skipped time has no instant, and the answer misses it by exactly the jump, to the side the asked time says |
| Timezone.RepeatedTime | src/shared/utils/timezone.ts:160-179 | a time the clocks pass twice has both instants, and which is answered |
| Timezone.ThreeOffsetsCanMiss | src/shared/utils/timezone.ts:152-159 | with three offsets nearby one correction can miss a time that exists |
| Timezone.ShowsTheAskedTime | src/shared/utils/timezone.ts:155-179 | so whenever some instant reads the asked minutes of the asked day, the answer shows that date and those minutes |
| Timezone.ReadsTheKey | src/shared/utils/timezone.ts:152-159 | an instant that reads what was asked shows the key's date and minutes, or the later date past midnight |
| Timezone.CacheKeyDistinct | src/shared/utils/timezone.ts:165-168 | no two questions share a cache entry, whatever the zone is called |
| Timezone.ZonedTimes.ZonedMinutesToUtc | src/shared/utils/timezone.ts:160-179 | the answer, cached or not, is the recomputed one, for every date the code itself writes, and the cache stays within 50 000 entries all of which are |
| WeekPatterns.LatestIs | src/modules/calendar/domain/calendar.rules.ts:43-52 | the pattern of a date is that of the last entry not after it |
| WeekPatterns.FindPattern | src/modules/calendar/domain/calendar.rules.ts:43-52 | the loop finds it |
| WeekPatterns.ChangedFrom | src/modules/calendar/domain/calendar.rules.ts:87-99 | after a change the pattern of a date is the old one before the change's date and the new days from it on |
| WeekPatterns.SameWeekAddsNothing | src/modules/calendar/domain/calendar.rules.ts:92-96 | asking later for the week already in force adds nothing |
| WeekPatterns.ChangeKeepsNormal | src/modules/calendar/domain/calendar.rules.ts:87-99 | a change leaves a normal history normal |
| WeekPatterns.HistoryIsNormal | src/modules/calendar/domain/calendar.rules.ts:60-81 | whatever is stored, the history read starts at the beginning of time, is in order with one entry a date, and holds weeks of ISO weekdays |
| WeekPatterns.ReadBack | src/modules/calendar/domain/calendar.rules.ts:60-81 | reading back what is written of a normal history is the identity |
| WeekPatterns.LastStoredWins | src/modules/calendar/domain/calendar.rules.ts:66-81 | a history says of a date what was stored for it last, from the beginning of time the single older pattern when nothing was, and of no other date anything |
| WeekPatterns.OlderPatternAlone | src/modules/calendar/domain/calendar.rules.ts:60-65 | without a list of entries it is the older pattern alone, and without a list of weekdays Monday to Saturday |
| WeekPatterns.SameMapSame | src/modules/calendar/domain/calendar.rules.ts:66-78 | an ordered history is determined by what it says of each date |
| WeekPatterns.ReadHistory | src/modules/calendar/domain/calendar.rules.ts:60-81 | collecting in a map and sorting gives that history |
| WeekPatterns.SortByDate | src/modules/calendar/domain/calendar.rules.ts:75-77 | the entries of the map, all of them, in order of date |
| WeekPatterns.WeekdaysKept | src/modules/calendar/domain/calendar.rules.ts:102-108 | of a stored list exactly the whole numbers 1 to 7 are kept, in order |
| WeekPatterns.CheckedWeek | src/modules/calendar/domain/calendar.rules.ts:111-121 | a list is accepted exactly when every item is a weekday, and an accepted one loses none |
| Calendar.LockedMonthStands | src/modules/calendar/application/calendar.service.ts:120-195 | over any sequence of changes, whether a day of a locked month is worked, its label and the month's summary stay what they were until it is unlocked |
| Calendar.LockedDaysStand | src/modules/calendar/application/calendar.service.ts:120-195 | and so do its pattern and its override, day by day |
| CalendarRaces.LockedMonthStandsThroughRaces | src/modules/calendar/application/calendar.service.ts:120-195 | with check, settings read, cache fill, merge, write and cache write as steps of their own: a month locked while no change or save past its check, and no settings cached or in flight, would now change a day of it keeps every day as it is until it is unlocked, in every interleaving |
| CalendarRaces.LockedDayStandsExactly | src/modules/calendar/application/calendar.service.ts:120-195 | an if-and-only-if, day by day: any other day of a locked month is changed by some run that does not unlock the month |
| CalendarRaces.NothingPastItsCheck | src/modules/settings/application/app-settings.service.ts:50-61 | it holds of every day when no change is past its check and the settings are not cached, cached as they are stored, or cached 15 s ago or more |
| CalendarRaces.StepsAreDo | src/modules/calendar/application/calendar.service.ts:120-177 | with nothing between them, and settings cached as they are stored or not at all, the steps of a change are the one operation |
| CalendarRaces.LooksAre | src/modules/settings/application/app-settings.service.ts:50-61 | somebody else reading the settings caches what the row held when it was read, for 15 s from when the reading began |
| CalendarRaces.CheckedDayReachesLockedMonth | src/modules/calendar/application/calendar.service.ts:152-169 | it fails for a day checked before its month was locked and written after |
| CalendarRaces.StaleHistoryReachesLockedMonth | src/modules/calendar/application/calendar.service.ts:136-143 | for a pattern that begins after the month but builds on settings read before, and puts the month's older pattern back |
| CalendarRaces.StaleCacheReachesLockedMonth | src/modules/settings/application/app-settings.service.ts:50-61 | with no call in flight at all when the month is locked: an old read of the settings had filled the cache after the month's last pattern was written, and the next pattern, asked for after the lock and from a month still open, builds on it |
| CalendarRaces.OtherSaveReachesLockedMonth | src/modules/settings/application/app-settings.service.ts:64-72 | for a save of other settings, which writes back the whole row as it was before the month's last pattern |
| Calendar.PatternChange | src/modules/calendar/application/calendar.service.ts:120-146 | an accepted pattern is in force from its date on and rewrites no day before, through the stored form and back |
| Calendar.Judged | src/modules/calendar/application/calendar.service.ts:120-195 | exactly when a change of a day or of the pattern is refused, and why |
| Calendar.DayChange | src/modules/calendar/application/calendar.service.ts:152-177 | an accepted day is worked and labelled as it was set, and a cleared one is a day of the pattern again; every other day is as it was |
| Calendar.OtherChanges | src/modules/calendar/application/calendar.service.ts:120-195 | a refused change writes nothing |
| Calendar.WorkingDaysAddUp | src/modules/calendar/domain/calendar.rules.ts:129-168 | a summary adds up: working days are the pattern's days, less the listed holidays that fall on them, and the extra days worked |
| Calendar.SameSummary | src/modules/calendar/domain/calendar.rules.ts:157-168 | a month's summary depends on its own days only |
| Calendar.Summarize | src/modules/calendar/domain/calendar.rules.ts:157-168 | the count of working days and the holidays of the month's dates, in order |
| Calendar.HolidaysAre | src/modules/calendar/domain/calendar.rules.ts:151-165 | a holiday is exactly a listed date set as not worked that has a label or is a day of the pattern |
| Calendar.HolidaysInOrder | src/modules/calendar/domain/calendar.rules.ts:151-165 | in the order of the dates |
| Calendar.CalendarService.ForOrg | src/modules/calendar/application/calendar.service.ts:58-82 | cached or read, the calendar says of every date what the rows say |
| Calendar.CalendarService.ReadRaw | src/modules/settings/application/app-settings.service.ts:50-61 | cached or read, the settings are the stored ones |
| CalendarCache.NoAnswerIsOlder | src/modules/calendar/application/calendar.service.ts:58-82 | with the settings and the days read apart, both caches, and reads in flight while writes clear and refill them: the days of an answer were the stored ones at some instant at most 30 s before the call began, and its patterns at some instant at most 45 s before and the longest a settings write has taken to refill its cache |
| CalendarCache.AnsweredWhileCached | src/modules/calendar/application/calendar.service.ts:58-62 | within 30 s the cached calendar is the answer, and otherwise the days and the settings, cached or not, are read anew |
| CalendarCache.FillAfterWriteIsOld | src/modules/calendar/application/calendar.service.ts:62-81 | a read that began before a write is cached after it, and answered to the next call |
| CalendarCache.AnswerNobodyHad | src/modules/calendar/application/calendar.service.ts:63-69 | an answer with the pattern of before one write and the days of after a later one, which was the calendar at no time |
| CalendarCache.PatternNearly45SecondsOld | src/modules/settings/application/app-settings.service.ts:50-61 | from requests alone, nothing cached: a pattern answered 44.998 s after it was changed |
| CalendarCache.SlowWriteCachesOldSettings | src/modules/settings/application/app-settings.service.ts:64-72 | the last term is needed: of two settings writes the slower one puts its own settings back, as old as it was slow and stamped as new |
| Calendar.CalendarService.WorkingDay | src/modules/calendar/application/calendar.service.ts:84-86 | the answer is that of the rows |
| Calendar.CalendarService.SetWeekPattern | src/modules/calendar/application/calendar.service.ts:120-146 | refused for bad days, a bad date or a locked month not before it, which is named as the latest; otherwise the new history, the settings cached with it, and a cleared calendar cache |
| Calendar.CalendarService.LatestLocked | src/modules/calendar/application/calendar.service.ts:130-135 | the latest locked month not before the given one, if any |
| Calendar.CalendarService.SetDay | src/modules/calendar/application/calendar.service.ts:152-169 | refused for a bad date or a locked month; otherwise the override and a cleared cache |
| Calendar.CalendarService.ClearDay | src/modules/calendar/application/calendar.service.ts:171-177 | the override removed, and the answer is what the pattern says of the day |

## Left out

- Controllers, gateways, DTOs, module wiring, notifications, logging and configuration: plumbing with no invariant of its own.
- The Windows agent's views, tray, capture and storage: user interface and foreign calls.
- Hashing, JWT and random tokens: a token is a fresh abstract value and stands for its own hash.
- Postgres: rows are maps, an `updateMany` with a condition is one atomic step, advisory and row locks are stages; a `hashtext` collision, which only excludes more, is not modelled.
- `Intl` zone data: a zone is any function from instants to offsets; local-hour buckets use one fixed offset, the zone the process is pinned to.
- The range limit of `Date` (8.64e15 ms): day numbers are unbounded.
- `buildTimeline`, `summarizeDay`, month and team totals, health flags and role tables: sums and lookups over files this model does not reach.
- The app, site and "top" lists of a day's view, and its login and clock-in labels: they follow the active seconds that are modelled.
- Reopening between the other steps of the replay table: `Replay` keeps the table and the lookup of the day, and
  `ReplayDayRaces` interleaves the reopening and restoring of several actions; what an action that succeeds
  writes to the day, and sessions the person starts meanwhile, are not modelled.
- Replay.MutualExclusion: is about runs in which no placeholder of the event goes stale or is deleted by the cleanup 30 days later, because the code's takeover is not exclusive; `Replay.StalePlaceholderIsTheGuard` says exactly when that ends it.
- Replay.JournalOrder: is about requests not held up for weeks inside `begin`; `Replay.HeldUpCheckForgetsTheOrder` is what happens to those.
- How a route is split into prefix and path: a request has the kind it stores and the kinds it compares itself with.
- Rotation.SendingTheOldTokenAgain: is about a claim that is not handed back, which is `Rotation.UnlinkedIsRefused`, and a row that the purge leaves.
- Items of people who belong to no organisation: they are in no month of the model until the person is assigned, and whose items they are is not kept.
- Open work sessions in `lockMonth`: they are a number that any event may change; whose they are and how they start and end is not modelled.
- Organisations.CreateDepartmentAnswers: departments have no names here, so their own name check is not modelled.
- Paths that edit people other than hiring, assigning, activating and removing: assumed to keep the role and lock discipline.
- OnlineSessions.OnlineSessionRepository.CloseOpenForUser: is one step of the log, as is `Heartbeat`; their statements are apart in `OnlineSessions.SplitClosesLose` and the lemmas beside it.
- CalendarRaces.LockedDayStandsExactly: is about months before 2100-12, the last month that the code takes a date of.
- Calendar.LockedMonthStands: is about sequences of whole operations; `CalendarRaces.LockedMonthStandsThroughRaces` takes them apart.
- Calendar.CalendarService.ForOrg: reads both halves and fills in one step, with a settings cache that nothing has raced; `CalendarCache` takes them apart.
- Calendar.CalendarService.SetWeekPattern: checks, reads through that cache and writes in one step; `CalendarRaces` takes them apart.
- The 3.x settings row that is read while an organisation has no row of its own: nothing writes it, so the two reads are one of what the first of them found.
- `cleanLabel`, and the other organisations' entries of the calendar and settings caches with their bounds of 500: text clean-up, and bounds that only force a fresh read.
- Timezone.ZonedTimes.ZonedMinutesToUtc: is for dates as the code writes them and whole minutes; anything else gives an invalid `Date`, which the zone formatting then rejects.
- Pattern removal from the token cache, purge timing and the agent's session list: they only take rows or entries away.
