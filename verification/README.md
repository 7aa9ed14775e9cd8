# ApproveFlow: verified core

This project models the protocols at the core of ApproveFlow, an approval
tracker for agencies and their clients, and proves what they promise: the email
outbox, the approval workflow, the activity feed, sessions in server and
browser, workspace membership and invites, due-date history, the calendar of the
date picker, and workspace slugs. `dafny verify dfyconfig.toml` checks all of it.

Where several requests touch the same rows, the model is a state machine: every
database statement or transaction is one atomic step, and everything between two
awaits is a place where any other request may act. A list of steps is one
interleaving, and the theorems speak about every such list.

The services themselves are classes whose methods follow the original control
flow. In the outbox, token, browser and due-date services every method extends a
run of the state machine, and its `Await` method lets the rest of the system take
any steps it likes at each await, so the theorems about runs apply to that code.
The transition, membership and feed services carry no run: their methods are
proved to do what one step of the state machine, or one function of the tables,
does.

| file | contents |
|---|---|
| `Prelude.dfy` | options, lists without repetition, `trim` |
| `EmailOutbox.dfy`, `EmailOutboxProofs.dfy`, `EmailOutboxHistory.dfy`, `EmailOutboxTheorems.dfy`, `EmailOutboxService.dfy` | claim, lease, delivery, retry and dead letter with any number of pollers |
| `TaskTransition.dfy`, `TaskStore.dfy`, `TaskRuns.dfy`, `TaskTheorems.dfy`, `TaskAnswers.dfy` | rule table, the optimistic transaction, runs with stale requests, what each request is answered and writes |
| `ActivityFeed.dfy`, `ActivityWalk.dfy` | three-table merge, keyset cursor, walking the pages |
| `AuthTokens.dfy`, `ApiClient.dfy` | token versions on the server, the shared refresh in the browser |
| `Membership.dfy`, `WorkspaceMembersService.dfy` | roles, invites, the last administrator |
| `DueDates.dfy` | due-date updates and their change log |
| `Gregorian.dfy`, `Calendar.dfy` | civil dates as in section 21.4.1 of ECMA-262, month grid, date strings |
| `Slug.dfy` | slug normalisation and truncation |

## Assumptions

- Outbox: no claim succeeds on a row that a poller still holds. This is exactly
  what mutual exclusion needs (`ExclusiveIffApart`), and it follows when every
  `processEntry` call that does not die ends strictly before the time it read at
  its start plus the lease, on one clock that never goes back
  (`TimelyRunIsApart`). `StalledPollerBreaksOutbox` shows a run without it.
- Outbox: a database call that rejects has had no effect. If the write of SENT
  took effect and only its answer were lost, the catch block would write PENDING
  or FAILED over it.
- Outbox: "mailed" means that the mail call returned true. A call that throws is
  counted as a call and not as a mail.
- Feed: no two rows of the three tables share both time and id, and the database
  and `localeCompare` order ids alike. What a page boundary needs of this is in
  `BoundaryLosesNothingIff`; `TiedRowIsLost` shows a row lost without it.
- Browser: one tab is the user's only session actor, no refresh response is lost
  on its way back, and the tab starts with valid cookies.
- Identifiers, random tokens and hashes do not collide. Signed tokens cannot be
  forged: the server accepts only tokens it has issued. Whether a token has
  expired, and whether a slug is taken, are parameters.
- Slugs: the lower-casing leaves strings of lower-case letters, digits and
  hyphens as they are.
- Membership requests and invite transactions run one at a time; everything else
  interleaves freely.

## Where the code promises less than one may expect

- A date string survives `parseDateInput` exactly from year 100 on, so the grid of
  January 100 shows cells that parse as days of 1999 (`ParseOfFormat`,
  `GridParsesBack`, `JanuaryOf100IsLost`).
- Accepting an old invite overwrites a higher role and can take away a
  workspace's last administrator, and nothing else does (`AdministeredThroughout`,
  `LastAdminCanBeLost`).
- Overlapping due-date updates break the chain of the change log, and nothing
  else does (`ChainIffNoStaleWrite`, `OverlappingUpdatesBreakChain`).
- A name has a valid slug exactly when it has a letter or digit and the cut to
  length does not fall right behind the hyphen after one of its words
  (`SlugMatchesIff`, `SlugIsValidIff`, `CutCanEndInHyphen`).
- A retry after a successful refresh is served exactly when no other refresh has
  gone through that the retry does not know of (`RetryServedIff`,
  `RetryCanBeOvertaken`).

## Model

| member | source | states |
|---|---|---|
| EmailOutboxTheorems.ExclusiveIffApart | apps/api/src/mail/email-outbox.service.ts:85-99 | throughout a run no two pollers hold one row exactly when no claim succeeds on a held row |
| EmailOutboxTheorems.TimelyRunIsApart | apps/api/src/mail/email-outbox.service.ts:8-96 | when no poller outlives its lease, no claim succeeds on a held row, so everything below holds |
| EmailOutboxTheorems.OnePollerPerRow | apps/api/src/mail/email-outbox.service.ts:84-106 | in every interleaving of pollers at most one holds a row, and the row it holds is still PENDING |
| EmailOutboxTheorems.SettledIsFinal | apps/api/src/mail/email-outbox.service.ts:113-137 | a row that is SENT or FAILED at some point of a run is the same row at every later point, although the final writes check only the id |
| EmailOutboxTheorems.MailedAtMostOncePlusLost | apps/api/src/mail/email-outbox.service.ts:164-196 | each user is mailed at most once per row, plus once for every crash or failed write between a mail and its write-back; only listed users are ever mailed |
| EmailOutboxTheorems.ProgressIsWhatWasMailed | apps/api/src/mail/email-outbox.service.ts:152-196 | with nothing lost, `sentUserIds` has no repetition, lists only clients of the row mailed exactly once, and misses at most the one mail in flight |
| EmailOutboxTheorems.SentMeansEveryClientMailed | apps/api/src/mail/email-outbox.service.ts:108-120 | a SENT hand-off row has mailed every listed client that had an account when it was enqueued |
| EmailOutboxTheorems.EnqueuedStays | apps/api/src/mail/email-outbox.service.ts:57-63 | over any run, a row enqueued for some recipients is a hand-off row for exactly these recipients ever after, with five attempts |
| EmailOutboxTheorems.MailsTheEnqueued | apps/api/src/mail/email-outbox.service.ts:53-65 | the mail of a hand-off goes to nobody but the recipients it was enqueued for, to each at most once plus losses, and once the row is SENT to every one of them that had an account when it was enqueued |
| EmailOutboxTheorems.OnlyAccountsAreMailed | apps/api/src/mail/email-outbox.service.ts:155-162 | only users that have an account are mailed, whether or not claims collide |
| EmailOutboxTheorems.ClaimStep | apps/api/src/mail/email-outbox.service.ts:87-96 | a claim succeeds exactly on a PENDING row that is due at the time read before, puts it off to 60 seconds after that time and changes nothing else |
| EmailOutboxTheorems.SendsAreCounted | apps/api/src/mail/email-outbox.service.ts:164-196 | each send, answered or not, is counted as one call of its row, each accepted one as mail to its user, and each crash or rejection before the write-back as a loss |
| EmailOutboxTheorems.AttemptsBounded | apps/api/src/mail/email-outbox.service.ts:121-137 | PENDING rows have attempts left, FAILED rows have used exactly all, SENT rows between one and all |
| EmailOutboxTheorems.CallsBounded | apps/api/src/mail/email-outbox.service.ts:121-196 | a row causes at most one mail call per listed client, one per attempt and one per crash |
| EmailOutboxTheorems.AttemptsArePaced | apps/api/src/mail/email-outbox.service.ts:87-96 | between claims that find a and b attempts lie at least 1000(b(b+1) - a(a+1)) ms, crashes or not |
| EmailOutboxTheorems.NthAttemptWaits | apps/api/src/mail/email-outbox.service.ts:127-137 | when no poller died on a row, its n-th claim comes at least 1000n(n-1) ms after the first |
| EmailOutboxTheorems.StalledPollerBreaksOutbox | apps/api/src/mail/email-outbox.service.ts:94 | a concrete run without crashes in which a poller outlives its lease, a client is mailed twice and a SENT row turns PENDING |
| EmailOutboxProofs.NextKeepsInv | apps/api/src/mail/email-outbox.service.ts:84-197 | every step of any poller keeps the joint invariant of rows, pollers and leases |
| EmailOutboxHistory.EffectBalancesMail | apps/api/src/mail/email-outbox.service.ts:168-195 | mail is conserved by each step: what was accepted is written back, forgotten by a crash, or still in the poller's hands |
| EmailOutboxService.EmailOutboxService.ProcessEntry | apps/api/src/mail/email-outbox.service.ts:84-143 | one call tries one claim; it skips only a row that cannot be claimed, and otherwise ends with the row delivered to every client or the attempt failed and PENDING or FAILED chosen by it, the row's attempts then being one more than the claim found, or with the process dead |
| EmailOutboxService.EmailOutboxService.ClaimEntry | apps/api/src/mail/email-outbox.service.ts:85-99 | a successful claim holds the row with the lease counted from the time read before the claim, and is on record with the attempts found; an unsuccessful one means the row was not claimable at that time |
| EmailOutboxService.EmailOutboxService.DeliverHandoffEmails | apps/api/src/mail/email-outbox.service.ts:145-197 | it returns only with nobody left to mail; otherwise the poller is in the catch block or dead |
| EmailOutboxService.EmailOutboxService.MailOne | apps/api/src/mail/email-outbox.service.ts:166-195 | the user at the head of the list is mailed and recorded before the next one is begun |
| EmailOutboxService.EmailOutboxService.Settle | apps/api/src/mail/email-outbox.service.ts:113-137 | the end of an attempt is SENT, or the catch block's choice, and counts exactly one attempt on the row the poller holds |
| EmailOutboxService.EmailOutboxService.CountFailure | apps/api/src/mail/email-outbox.service.ts:121-137 | the stored attempts become one more than the poller read, and the row FAILED exactly at `maxAttempts` |
| EmailOutboxService.EmailOutboxService.FindDue | apps/api/src/mail/email-outbox.service.ts:67-77 | up to 20 distinct claimable rows, oldest first and none older left out, and all of them when there are fewer |
| EmailOutboxService.EmailOutboxService.ProcessPending | apps/api/src/mail/email-outbox.service.ts:67-82 | the due rows are each visited once and in order; a poll stops early only where its process dies |
| EmailOutboxService.EmailOutboxService.EnqueueHandoffEmails | apps/api/src/mail/email-outbox.service.ts:53-65 | the stored row is PENDING, due at once, with no attempt made and exactly the recipients given; it is in the batch processed next, unless that is full |
| TaskTransition.RulesAreTheMatrix | apps/api/src/tasks/domain/task-transition.ts:21-118 | the rule table allows exactly the moves of the product's transition matrix |
| TaskTransition.OfferedIsAllowed | apps/api/src/tasks/domain/task-transition.ts:198-209 | the targets offered to a role are exactly those a request may ask for |
| TaskStore.TasksTransitionService.Transition | apps/api/src/tasks/tasks-transition.service.ts:33-218 | the statement-by-statement method leaves the tables and gives the answer of the atomic decision, also when the transaction throws half-way |
| TaskStore.TasksTransitionService.Transaction | apps/api/src/tasks/tasks-transition.service.ts:70-215 | the transaction body agrees with the atomic commit whenever it does not throw |
| TaskStore.TasksTransitionService.Move | apps/api/src/tasks/tasks-transition.service.ts:96-214 | once the guarded update has found the task, the writes add up to the commit, or to a bad request when there is nobody to hand off to |
| TaskStore.TasksTransitionService.HandoffClients | apps/api/src/tasks/tasks-transition.service.ts:109-132 | recipients found, and project membership grown only by an explicit selection |
| TaskStore.TasksTransitionService.NotifyStatusChanged | apps/api/src/notifications/notifications.service.ts:57-103 | one notification per distinct recipient, in either way of choosing recipients |
| TaskRuns.NextKeepsInv | apps/api/src/tasks/tasks-transition.service.ts:70-166 | every step of any request, stale or not, keeps paths, journal, side tables and change-request comments in order |
| TaskTheorems.LogIsAPath | apps/api/src/tasks/tasks-transition.service.ts:39-94 | for every interleaving, also between the reads of task and role, the committed events of a task are an unbroken path of matrix moves from BRIEF to its status, each by an actor whose loaded role allows it |
| TaskTheorems.DoneIsFinal | apps/api/src/tasks/domain/task-transition.ts:108-110 | once DONE, a task's row and log never change again |
| TaskTheorems.ClosureIsTwoSided | apps/api/src/tasks/domain/task-transition.ts:38-66 | the log of a DONE task ends with send by the agency, acceptance and approval by a client, closure by the agency |
| TaskTheorems.HandoffsBalance | apps/api/src/tasks/domain/task-transition.ts:38-66 | sends are recalled, accepted or waiting; acceptances are approved, sent back or waiting; exactly one approval in PENDING_CLOSURE and DONE, none elsewhere |
| TaskTheorems.EventsTellTheirMove | apps/api/src/tasks/domain/task-transition.ts:141-174 | a committed event is an acknowledgement exactly for CLIENT_HANDOFF to CLIENT_APPROVAL, an approval exactly for CLIENT_APPROVAL to PENDING_CLOSURE, and a change request exactly for CLIENT_APPROVAL to PRODUCTION |
| TaskTheorems.SideTablesMirrorEvents | apps/api/src/tasks/tasks-transition.service.ts:134-166 | acknowledgement rows are in bijection with the accepted hand-offs, approval rows with the approvals and change requests, told apart by their moves; they agree with their events on task, actor and comment |
| TaskTheorems.ChangeRequestsHaveComments | apps/api/src/tasks/tasks-transition.service.ts:96-107 | every move from CLIENT_APPROVAL to PRODUCTION has a comment row of its own with the same author and non-blank text |
| TaskTheorems.HandoffReachesProjectClients | apps/api/src/tasks/tasks-transition.service.ts:109-132 | a committed hand-off names distinct clients of the workspace, all members of the project once the commit is done; only an explicit selection adds members, and exactly the selected |
| TaskTheorems.EachRecipientNotifiedOnce | apps/api/src/notifications/notifications.service.ts:72-102 | a committed move notifies each user it concerns once and never the actor |
| TaskAnswers.MovedIff | apps/api/src/tasks/tasks-transition.service.ts:39-132 | a request moves the task exactly when the matrix allows it, a change request has a non-blank comment, the task is still as loaded, and a hand-off has somebody to go to |
| TaskAnswers.RefusalIs | apps/api/src/tasks/tasks-transition.service.ts:42-93 | forbidden, bad request, not found, conflict and no-op are each answered in exactly the cases given |
| TaskAnswers.MoveWrites | apps/api/src/tasks/tasks-transition.service.ts:71-144 | a committed move changes one task's status and appends one event with task, actor, move and trimmed comment |
| TaskAnswers.MoveWritesBeside | apps/api/src/tasks/tasks-transition.service.ts:96-166 | it appends an acknowledgement, an approval, a change request or a comment exactly as its move calls for |
| TaskAnswers.MailGoesTo | apps/api/src/tasks/tasks-transition.service.ts:109-132 | the hand-off mail goes to exactly the selected clients, or to exactly the project's clients when none is selected |
| TaskAnswers.RolesWereHeld | apps/api/src/tasks/tasks.service.ts:190-195 | every request in flight decides with a role its actor held in the task's workspace at some point of the run |
| TaskAnswers.RequestsWereRead | apps/api/src/tasks/tasks.service.ts:185-195 | every request in flight carries what was asked and the task as it stood when it was read |
| TaskAnswers.TaskStaysWhereCreated | apps/api/src/tasks/tasks.service.ts:144-155 | a task stays in the project and workspace it was created in, and starts in BRIEF |
| ActivityFeed.ProjectActivityService.GetActivity | apps/api/src/projects/project-activity.service.ts:32-118 | the merged page is the page of the simple feed that sorts everything and cuts |
| ActivityFeed.FetchIsEnough | apps/api/src/projects/project-activity.service.ts:34-116 | `limit + 1` rows of each table decide the page, the has-more answer and the next cursor |
| ActivityFeed.AddTable | apps/api/src/projects/project-activity.service.ts:36-66 | the top rows of two tables together need only the top rows of each |
| ActivityFeed.SortIsUnique | apps/api/src/projects/activity-cursor.ts:39-48 | the order determines the sorted list, whatever sorting method is used |
| ActivityWalk.NextPageStartsHere | apps/api/src/projects/activity-cursor.ts:25-37 | the rows below a page's cursor are exactly the rows after its last one |
| ActivityWalk.WalkIsAPrefix | apps/api/src/projects/project-activity.service.ts:105-116 | at every point of a walk, what was listed followed by what is to come is the feed of the first request |
| ActivityWalk.WalkListsEverythingOnce | apps/api/src/projects/activity-cursor.ts:30-36 | a walk to a null cursor lists every row visible at the first request once, newest first, whatever the page sizes and whatever newer rows arrive meanwhile |
| ActivityWalk.WalkIsTheSortedFeed | apps/api/src/projects/project-activity.service.ts:32-118 | on unchanging tables the pages put together are the sorted feed |
| ActivityWalk.WalkEnds | apps/api/src/projects/project-activity.service.ts:107-116 | a walk takes no more requests than there are rows |
| ActivityWalk.BoundaryLosesNothingIff | apps/api/src/projects/activity-cursor.ts:30-36 | keys distinct or not, no row of a page is below its cursor, and every later row is exactly when the boundary does not separate two rows with equal time and id |
| ActivityWalk.TiedRowIsLost | apps/api/src/projects/activity-cursor.ts:30-36 | two rows with the same time and id, cut between pages: one is never listed |
| AuthTokens.VersionsOnlyGrow | apps/api/src/auth/auth-token.service.ts:31-64 | a token version never goes down over any run of logins, refreshes, logouts and resets |
| AuthTokens.TokensAreNotAhead | apps/api/src/auth/auth-token.service.ts:40-57 | no token, issued or being signed, carries a version above its user's |
| AuthTokens.OneRefreshPerVersion | apps/api/src/auth/auth-token.service.ts:31-38 | at most one refresh per user and version succeeds, always with a token that was issued, and the used token is good for nothing afterwards |
| AuthTokens.SecondRefreshFails | apps/api/src/auth/auth-token.service.ts:31-38 | of two refreshes in a run with tokens of the same user and version, the later one never goes through once the earlier one has |
| AuthTokens.RevokedForever | apps/api/src/auth/jwt.strategy.ts:28-51 | whatever was issued or being signed before a logout or reset is rejected by `validate` and `refresh` forever after |
| AuthTokens.AcceptedIffCurrent | apps/api/src/auth/auth-token.service.ts:43-57 | a freshly signed pair is accepted exactly when its version is still the user's |
| AuthTokens.VersionStep | apps/api/src/auth/auth-token.service.ts:32-64 | a logout, a committed reset and a refresh that goes through each add exactly one to the user's version, nothing else touches it, and a new user's is 0 |
| AuthTokens.UsableUntilMoved | apps/api/src/auth/auth-token.service.ts:31-57 | a token of the version stored at some point of a run is accepted later exactly when no refresh, logout or reset of that user came between |
| AuthTokens.SettlesOnStored | apps/api/src/auth/auth-token.service.ts:31-40 | a login, and a refresh that goes through, settle on the version that is then stored |
| AuthTokens.ResetRowsAfter | apps/api/src/auth/password-reset.service.ts:37-85 | asking for a reset and completing one drop the user's reset rows and nobody else's |
| AuthTokens.ResetStep | apps/api/src/auth/password-reset.service.ts:65-85 | a reset starts from a stored row not past its time, acts for that row's user, and commits once |
| AuthTokens.ResetTokensAreUsedUp | apps/api/src/auth/password-reset.service.ts:74-85 | a committed reset uses up all reset tokens of the user |
| AuthTokens.AuthTokenService.RefreshTokens | apps/api/src/auth/auth-token.service.ts:19-41 | succeeds exactly for an issued, unexpired refresh token of the current version; the new pair carries the next version and is accepted exactly when nothing has moved the user's version since, and the used token is not |
| AuthTokens.AuthTokenService.SignTokens | apps/api/src/auth/auth-token.service.ts:43-57 | an access and a refresh token for the version settled on before |
| AuthTokens.AuthTokenService.Login | apps/api/src/auth/auth.service.ts:99-117 | the pair carries the version stored at the lookup and is accepted exactly when nothing has moved it since |
| AuthTokens.AuthTokenService.RevokeUserTokens | apps/api/src/auth/auth-token.service.ts:59-64 | the user's version grows by one and nothing else changes |
| AuthTokens.AuthTokenService.Validate | apps/api/src/auth/jwt.strategy.ts:28-51 | accepts exactly payloads that name a user, are not refresh tokens and carry the stored version |
| AuthTokens.AuthTokenService.ForgotPassword | apps/api/src/auth/password-reset.service.ts:22-43 | stores a row under a fresh hash, good for an hour, after dropping the user's earlier rows, and does nothing for an unknown address |
| AuthTokens.AuthTokenService.ResetPassword | apps/api/src/auth/password-reset.service.ts:65-88 | succeeds exactly for a stored hash that is not past its time; then no token issued before is accepted and no reset row of the user is left |
| ApiClient.RefreshIsSingleFlight | apps/web/src/api/client.ts:58-62 | at most one refresh is under way, it presents the server's current version, and none is ever rejected |
| ApiClient.AtMostTwoSends | apps/web/src/api/client.ts:37-72 | a call sends its own request once or twice, twice only after a 401 and after the refresh it awaited went through; an expired session means that refresh failed |
| ApiClient.EndsByItsAnswer | apps/web/src/api/client.ts:57-90 | a call returns a value exactly for a good last answer, fails with exactly the status of any other, and a 401 to the first send of an ordinary path ends it only through a failed refresh |
| ApiClient.PromiseTellsTheTruth | apps/web/src/api/client.ts:22-72 | the shared promise settles with success exactly when the server rotated for that refresh and with failure exactly when the request was lost; so a second send means a rotation and an expired session a lost refresh |
| ApiClient.GrowthIsPaidFor | apps/web/src/api/client.ts:58-67 | the version grows by one per refresh that goes through, and there are no more of them than calls that saw a 401 |
| ApiClient.ApiClient.ApiFetch | apps/web/src/api/client.ts:37-91 | every call finishes; its result is the value exactly of a good last answer and otherwise the error of that answer; it sends twice only after the refresh it awaited went through, ends as expired exactly when that refresh failed, and never retries login and refresh paths |
| ApiClient.ApiClient.AwaitRefresh | apps/web/src/api/client.ts:64-67 | a waiting call learns how the promise it waits for settled |
| ApiClient.FirstServedIff | apps/web/src/api/client.ts:51-57 | a first send not yet answered can be served exactly when no refresh that had gone through on the server was still on its way to the tab as the call was made, and none has gone through since |
| ApiClient.RetryServedIff | apps/web/src/api/client.ts:58-67 | a retry not yet answered can be served exactly when no refresh that had gone through on the server was still on its way to the tab as the retry was sent, and none has gone through since |
| ApiClient.RetryCanBeOvertaken | apps/web/src/api/client.ts:58-67 | a concrete schedule without any failure in which a retried call still ends with a 401 |
| Membership.NextKeepsInv | apps/api/prisma/schema.prisma:282-303 | every membership step keeps one invite per workspace and address, one account per address, and members that are accounts in workspaces that exist |
| Membership.LastAdminGoesOnlyByAccepting | apps/api/src/workspaces/workspace-members.service.ts:155-268 | a step takes a workspace's last administrator away exactly when that administrator accepts an invite to a lesser role |
| Membership.AdministeredThroughout | apps/api/src/invites/workspace-invites.service.ts:63-83 | over a whole run every workspace has an administrator exactly when no such acceptance occurs |
| Membership.LastAdminCanBeLost | apps/api/src/invites/workspace-invites.service.ts:71 | a run of requests the services accept, every invite unexpired, after which nobody administers a workspace |
| Membership.AdminTraces | apps/api/src/workspaces/workspace-members.service.ts:66-197 | every ADMIN membership traces back to the workspace's creator through grants by users who were ADMIN when they granted |
| Membership.AdminInviteTraces | apps/api/src/workspaces/workspace-members.service.ts:73-101 | every ADMIN invite, pending or accepted, was sent by such an administrator |
| Membership.MayInviteIff | apps/api/src/workspaces/workspace-members.service.ts:73-83 | administrators may invite to every role, managers to every role but ADMIN, and nobody else may invite |
| Membership.InviteWasSent | apps/api/src/workspaces/workspace-members.service.ts:66-101 | every invite, whatever its role, was sent by somebody entitled to send it at that moment |
| Membership.RoleWasGranted | apps/api/src/workspaces/workspace-members.service.ts:66-197 | every membership, whatever its role, comes from creating the workspace, from an ADMIN's change, or from an invite by somebody entitled to it |
| Membership.NotLastAdminMeansTwo | apps/api/src/workspaces/workspace-members.service.ts:257-268 | the count check means that two different administrators exist |
| WorkspaceMembersService.WorkspaceMembersService.Invite | apps/api/src/workspaces/workspace-members.service.ts:66-153 | not found, forbidden, bad request and conflict exactly in the cases given, forbidden being everyone but an ADMIN, or a MANAGER not inviting to ADMIN; a known address is added with the role, an unknown one gets its invite |
| WorkspaceMembersService.WorkspaceMembersService.CreateEmailInvite | apps/api/src/invites/workspace-invites.service.ts:148-177 | drops exactly the pending invites of the address and stores the new one for a week; refused exactly when the hash, or an accepted invite of the address, stands in the way |
| WorkspaceMembersService.WorkspaceMembersService.UpdateRole | apps/api/src/workspaces/workspace-members.service.ts:155-197 | changes exactly the one membership; not found, forbidden and bad request exactly in the cases given, the last for demoting the only administrator |
| WorkspaceMembersService.WorkspaceMembersService.Remove | apps/api/src/workspaces/workspace-members.service.ts:199-238 | removes exactly the one membership; not found, forbidden and bad request exactly in the cases given, the last for the only administrator |
| WorkspaceMembersService.WorkspaceMembersService.AssertNotLastAdmin | apps/api/src/workspaces/workspace-members.service.ts:257-268 | passes exactly when there are two different administrators |
| WorkspaceMembersService.WorkspaceMembersService.AcceptInviteToken | apps/api/src/invites/workspace-invites.service.ts:38-93 | accepts exactly an unused, unexpired invite to the account's own address, and changes nothing otherwise |
| WorkspaceMembersService.WorkspaceMembersService.AcceptPendingInvitesForEmail | apps/api/src/invites/workspace-invites.service.ts:95-146 | stamps exactly the pending unexpired invites of the address and returns their number, leaves none, gives each invited workspace the role of its own invite and touches nothing else |
| WorkspaceMembersService.AcceptOneMore | apps/api/src/invites/workspace-invites.service.ts:113-141 | accepting one more invite disturbs none accepted before; rests on one invite per workspace and address |
| WorkspaceMembersService.AcceptedKeepsAdmin | apps/api/src/invites/workspace-invites.service.ts:115-128 | after the loop an invited workspace has an administrator exactly when its invite is one or somebody else is |
| DueDates.LastRowIsCurrent | apps/api/src/tasks/tasks.service.ts:326-340 | however updates interleave, the last row's new value is the task's due date, and no row has equal old and new values |
| DueDates.ChainIffNoStaleWrite | apps/api/src/tasks/tasks.service.ts:312-340 | a task's log is a chain from its creation exactly when no update wrote over a due date it had not read |
| DueDates.AtomicUpdatesChain | apps/api/src/tasks/tasks.service.ts:293-340 | updates that run one at a time always leave a chain |
| DueDates.OverlappingUpdatesBreakChain | apps/api/src/tasks/tasks.service.ts:326-340 | two overlapping updates leave two rows that start from the same value |
| DueDates.TasksService.UpdateDue | apps/api/src/tasks/tasks.service.ts:293-371 | writes, in its last step, one row from the value read at the start and the same new value on the task, exactly when the two differ; errors change nothing |
| Gregorian.CivilDateIsUnique | apps/web/src/lib/calendar.ts:15 | a civil date read back from its day number is the same date |
| Gregorian.DayHasCivilDate | apps/web/src/lib/calendar.ts:35-36 | every day has a civil date, which gives the day back |
| Gregorian.MakeDayIsEcma | apps/web/src/lib/calendar.ts:47-49 | counting months from the epoch agrees with the closed form of section 21.4.1 of ECMA-262 for all years, months and days |
| Calendar.GetCalendarMonthDays | apps/web/src/lib/calendar.ts:46-62 | 42 consecutive dates from a Monday on that hold the viewed month as one block, which `inMonth` marks exactly although it compares only month numbers |
| Calendar.MonthNumberMarksBlock | apps/web/src/lib/calendar.ts:57 | four weeks around a month only its own days show its number |
| Calendar.ParseOfFormat | apps/web/src/lib/calendar.ts:6-16 | a date survives formatting and parsing exactly when its year is 100 or later |
| Calendar.FormatIsInjective | apps/web/src/lib/calendar.ts:6-11 | different days have different strings |
| Calendar.DateStringIs | apps/web/src/lib/calendar.ts:6-11 | a date string is the year without leading zeros, then two digits each for the month counted from 1 and the day of the month |
| Calendar.DateTextDenotes | apps/web/src/lib/calendar.ts:13-16 | three numbers with dashes between them, and anything behind a further dash, denote the day they name, the years 0 to 99 being read as 1900 to 1999 and all else running over |
| Calendar.OnlyDateTextsParse | apps/web/src/lib/calendar.ts:13-16 | no other text is read as a date |
| Calendar.GridParsesBack | apps/web/src/lib/calendar.ts:13-62 | all cells parse back to their dates exactly when the viewed month comes after January 100 |
| Calendar.ViewsThatParseBack | apps/web/src/lib/calendar.ts:13-62 | for the views the picker reaches, that leaves out negative years and January 100 |
| Calendar.JanuaryOf100IsLost | apps/web/src/lib/calendar.ts:13-16 | the first cell of January 100 reads 99-12-28 and parses as 28 December 1999 |
| Calendar.ShiftMonthAdds | apps/web/src/lib/calendar.ts:64-71 | a shift adds months and gives a month number from 0 to 11 |
| Calendar.ShiftsAddUp | apps/web/src/lib/calendar.ts:64-71 | two shifts add up exactly when the first does not stop in the years 0 to 99 |
| Calendar.AddDaysAdds | apps/web/src/lib/calendar.ts:33-37 | days are added to the given date exactly when its year is not 0 to 99 |
| Slug.SlugifyIs | packages/shared/src/slug.ts:8-15 | a slug is the maximal runs of letters and digits of the trimmed, lower-cased name, joined by hyphens and cut to length |
| Slug.WordsTakeApart | packages/shared/src/slug.ts:12 | a text is its runs of lower-case letters and digits with other characters between them, none of them lost, added or moved |
| Slug.PatternIs | packages/shared/src/slug.ts:1 | the pattern, as words joined by hyphens, described character by character |
| Slug.SlugifyFixesSlugs | packages/shared/src/slug.ts:8-19 | a valid slug is its own slug |
| Slug.UntruncatedIsValid | packages/shared/src/slug.ts:8-19 | an untruncated slug is empty or matches the pattern, and is its own slug |
| Slug.ValidUnlessEndsInHyphen | packages/shared/src/slug.ts:14-19 | a non-empty slug, cut or not, matches the pattern exactly when it does not end in a hyphen |
| Slug.SlugMatchesIff | packages/shared/src/slug.ts:8-15 | a name's slug matches the pattern exactly when the name has a letter or digit and the length limit does not fall right behind the hyphen after one of its words |
| Slug.SlugIsValidIff | packages/shared/src/slug.ts:6-19 | the same for `isValidSlug` at the default length |
| Slug.TwiceIsThrice | packages/shared/src/slug.ts:8-15 | a second application gives a fixed point, empty or matching, and changes something exactly when the first slug ends in a hyphen |
| Slug.CutCanEndInHyphen | packages/shared/src/slug.ts:14 | a word that fills all but one place, followed by another, leaves a slug that is not valid |
| Slug.WholeMatches | packages/shared/src/slug.ts:8-13 | before cutting, a slug is empty exactly for names without a letter or digit and matches the pattern otherwise |

## Left out

- Mail texts, mail server, correlation ids, `lastError` and the poll timer of the outbox; `nextRetryAt` is compared as milliseconds.
- The time between a poll's clock reading and its query for due rows: every claim checks the row again.
- Outbox rows enqueued with recipients already marked as sent: the only caller, apps/api/src/notifications/notifications.service.ts:136, passes none.
- Deleting tasks, projects, workspaces and users, and the cascades that go with it.
- Access checks before a transition beyond workspace membership, and the check that the project exists: they only turn requests away.
- The actor role restrictions of notifications to single roles: no caller modelled here uses them.
- Task titles, descriptions, assignees, labels, message texts and project status, which is informational only.
- The wire form of the feed cursor, display fields of feed rows, and rows that arrive below the cursor while a walk is under way.
- Token signatures, password hashing and request throttling: they only turn requests away.
- Sessions shared by several tabs, and logins or logouts that interleave with the tab's calls.
- Last-administrator safety when role changes and removals interleave between check and write.
- Mail sent for workspace invites, the token shown when that mail fails, and membership notifications.
- Time zones, daylight saving and the range limit of JavaScript dates: a date is its day number at local midnight.
- ParseDateInput: does not model numerals other than decimal digits, such as signs, blanks or hexadecimal, because no date string of the program contains them.
- GetViewFromValue, today's date, and the display formats of the calendar.
- Case mapping of Unicode letters: `Slug` takes any lower-casing that leaves slug strings alone.
- User interface, controllers, modules, validators, environment and deployment.
