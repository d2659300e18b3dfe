# ProxiServe kernels: a verified model

A Dafny model of the stateful kernels of the ProxiServe case-handling backend, with proofs about all of
their runs. `dafny verify dfyconfig.toml` checks it.

Services that change rows or keys appear as classes whose methods follow the source's branches; each method
is proved against a function on values (`After`, `Assigned`, `Booked`, ...), and the theorems are about runs
of these functions. Protocols whose awaits interleave (claims, cap checks, the flag caches, the rate limiter's
two commands) appear as step systems.

| file | kernel |
|---|---|
| `Scoring.dfy`, `Assignments.dfy`, `Fairness.dfy` | agent scoring, the counts it reads off cases and logs, fairness of a day's run |
| `DailyCap.dfy`, `CapRace.dfy` | the daily cap, for serial and for concurrent requests |
| `Lifecycle.dfy`, `ClaimRace.dfy` | one case with its logs; concurrent claims under a skipped lock |
| `RateLimit.dfy`, `Lockout.dfy`, `Sessions.dfy`, `Otp.dfy` | counters and markers with expiry |
| `Maintenance.dfy` | the maintenance flag behind a memory cache and a Redis key |
| `Payments.dfy` | the payments ledger |
| `Documents.dfy`, `FormCards.dfy` | document version chains; form fields grouped into cards |
| `TtlStore.dfy`, `Sorting.dfy`, `Wrappers.dfy` | expiring keys, stable sort, optional values |

Conventions: time is one non-decreasing integer clock in seconds; a key with expiry answers strictly before it.
Floats are exact rationals (`real`). Ids, tokens and families are numbered as they are issued, which makes them
fresh and distinct. Gateway answers, drawn receipt numbers, the order in which a query lists rows and the
result of a password check are parameters. A request that raises changes nothing, as its transaction is rolled
back. Two fields are bookkeeping that the program does not store: `forced` in a status entry, and `lineage` with
`spent` in the session state.

## Model

| member | source | states |
|---|---|---|
| Scoring.ScoreAgents | app/modules/assignments/service.py:191-229 | the loop that rates each eligible agent and the sort pick what the scoring specification chooses, threshold included |
| Scoring.WinnerIsFirstBest | app/modules/assignments/service.py:224-229 | the winner's score is maximal; among equals it is the longest unassigned, never-assigned first, then the first in input order |
| Scoring.ScoreRange | app/modules/assignments/service.py:206-223 | with skill levels 1..5 and SLA rates 0..100 every score lies in [8, 100], and from 18 up off the urgent tier |
| Scoring.ScoreRangeIsTight | app/modules/assignments/service.py:206-223 | 100, 18 and 8 are reached, so no weight can be traded for another one |
| Scoring.NoWinnerIff | app/modules/assignments/service.py:227-229 | no agent is returned exactly when all eligible agents score below 15 |
| Scoring.ThresholdOnlyBitesUrgent | app/modules/assignments/service.py:217-228 | off the urgent tier no agent is returned exactly when nobody is eligible |
| Scoring.UrgentCanBeRejected | app/modules/assignments/service.py:217-228 | an urgent case can go without an agent although one is eligible (score 8) |
| Scoring.BelowThresholdIff | app/modules/assignments/service.py:206-228 | exactly which agents score under 15: only on the urgent tier, without a listed skill from level 2 on, and with active cases, cap and SLA rate in a cross-multiplied inequality |
| Scoring.ReportedReasonIsTrue | app/modules/assignments/service.py:231-240 | the reason reported to admins is "no eligible agents" exactly when there are none; otherwise the reported score is below the threshold |
| Scoring.Dominance | app/modules/assignments/service.py:201-223 | an agent at least as good in expertise points, load ratio and SLA rate never scores lower |
| Scoring.MoreLoadNeverHelps | app/modules/assignments/service.py:212-214 | further active cases never raise a score, and lower it strictly below the cap |
| Scoring.PriceOfACase | app/modules/assignments/service.py:203-214 | one more active case costs 30 points divided by the cap, by 20 without one, and nothing from the cap on; from idle to the cap it is 30 points |
| Scoring.PriceOfALevel | app/modules/assignments/service.py:205-211 | a listed skill is worth 8 points a level, and none is worth 10 |
| Scoring.PriceOfAPercent | app/modules/assignments/service.py:215-222 | a percent of SLA rate is worth 0.2 points, 0.3 on the urgent tier; no rate counts as 50 |
| Scoring.MatchIsFirst | app/modules/assignments/service.py:205 | the skill that counts is the first listed one of the category |
| Scoring.SkillBeatsNoSkillIff | app/modules/assignments/service.py:206-211 | a listed skill is worth more than none exactly from level 2 on |
| Sorting.SortHeadIsFirstLeast | app/modules/assignments/service.py:226-229 | the head of a stable sort is the first of the least elements |
| Sorting.SortKeepsClass | app/modules/services/service.py:57 | the sort keeps elements of equal rank in input order and drops none |
| Assignments.FetchEligibleAgents | app/modules/assignments/repository.py:110-144 | the loop that drops agents at their daily cap returns the specified rows |
| Assignments.EligibleRowsAreExact | app/modules/assignments/repository.py:71-144 | a row is returned for exactly the active, recently seen, accepting agents with fewer assignments since midnight than their cap, with the number of their open cases and the latest of their assignment times |
| Assignments.ActiveCountIsExact | app/modules/assignments/repository.py:79-91 | the active count is the number of the agent's cases that are not completed, rejected or cancelled |
| Assignments.DailyCountIsExact | app/modules/applications/repository.py:131-141 | the day's count is the number of assignment entries for the agent since the last midnight |
| Assignments.LastAssignedIsExact | app/modules/assignments/repository.py:102-109 | the last assignment is the latest entry for the agent over all cases, absent if there is none |
| Assignments.SlaComplianceIsExact | app/modules/assignments/repository.py:159-188 | the SLA rate is 100 times the on-time share of the agent's cases finished in the last 30 days, absent without such a case |
| Assignments.SlaComplianceRange | app/modules/assignments/repository.py:159-188 | computed SLA rates are percentages |
| Assignments.NobodyMeansNobodyEligible | app/modules/assignments/service.py:191-240 | on any database state a score of 0 means that no user is eligible, and off the urgent tier so does the lack of a winner |
| Assignments.AssignmentsService.ValidateAgentAvailable | app/modules/assignments/service.py:506-513 | refuses an agent that does not accept cases or is at its cap for the day, and nobody else |
| Assignments.AssignmentsService.AssignByAdmin | app/modules/assignments/service.py:142-167 | assigns after the checks on case, agent and cap, in that order; an error changes nothing |
| Assignments.AssignmentsService.ClaimUnassigned | app/modules/assignments/service.py:254-275 | assigns an unassigned received case to an available agent; the errors of the source otherwise |
| Assignments.AssignmentsService.AutoAssignApplicationJob | app/modules/assignments/jobs.py:14-35 | gives an unassigned case to the winner of the scoring and leaves every other case alone |
| Assignments.AssignmentsService.AutoAssignByAdmin | app/modules/assignments/service.py:169-189 | re-runs the scoring without looking for an agent, and answers whether it assigned |
| Fairness.SchedulingIsFair | app/modules/assignments/service.py:191-229 | agents equal but for their load, with equal counts at the start, stay within one active case of each other after every step of a day of auto-assignments, for any row order, past saturation and at the cap |
| Fairness.RosterDayIsLevel | app/modules/assignments/repository.py:159-188 | while no case is finished, equal caps and expertise alone make agents alike for the whole day: the SLA rates read off the cases stay equal by themselves |
| Fairness.WinnerIsBehind | app/modules/assignments/service.py:201-229 | on a level field the job gives a fresh case to an agent with the fewest active cases |
| Fairness.GivenCaseCounts | app/modules/assignments/repository.py:80-108 | an auto-assignment adds one to the winner's active and daily counts read off the tables, makes it the last assigned, and moves no other agent |
| Fairness.ArrivalKeepsBalance | app/modules/assignments/jobs.py:14-35 | each submission with its job keeps the agents balanced: within one case, those behind having waited longer |
| DailyCap.AssignedUnderCap | app/modules/assignments/service.py:506-513 | every claim, admin assignment and automatic assignment leaves its agent at or below the cap in force when checked and counts for no one else |
| DailyCap.CapsHoldInEveryRun | app/modules/assignments/service.py:142-189 | with settings left alone no agent passes its cap in any serial run, over midnights too |
| DailyCap.AssignmentCounts | app/modules/applications/repository.py:131-141 | one assignment adds exactly one to the day's count of its agent |
| DailyCap.ClosingFreesItsAgent | app/modules/assignments/repository.py:79-91 | an event that closes an open case lowers its agent's active count by exactly one and no other agent's |
| DailyCap.ClaimGrantedIff | app/modules/assignments/service.py:254-267 | a claim is granted exactly to an agent that accepts cases and is under its cap, for a received case without agent |
| DailyCap.AdminAssignedIff | app/modules/assignments/service.py:151-156 | an admin's assignment is granted exactly to an active agent that accepts cases and is under its cap, for any case |
| DailyCap.ScoringAssignsIff | app/modules/assignments/jobs.py:20-33 | the job assigns exactly a case without agent for which an eligible agent scores 15 or more, the admin's re-run also one with an agent |
| CapRace.CapOverrunIsBounded | app/modules/assignments/service.py:254-275 | with at most N check-then-commit transactions in flight the count that the check reads, committed since midnight, never exceeds cap + N - 1 |
| CapRace.EveryDayOverrunIsBounded | app/modules/applications/repository.py:131-141 | the same bound for the entries stamped on any one day, also those that are committed after its midnight |
| CapRace.CapOverrunIsReached | app/modules/assignments/service.py:254-275 | that overrun is attained, for every cap and N |
| ClaimRace.AtMostOneClaimCommits | app/modules/assignments/service.py:254-275 | over any interleaving of any number of claims, with aborts, at most one commits and the log gains at most its one entry |
| ClaimRace.ExactlyOneClaimWins | app/modules/applications/repository.py:111-117 | for a claimable case, without aborts, exactly one claim has won when all have ended and one passed validation |
| Lifecycle.RowIsFoldOfLogs | app/modules/applications/service.py:186-218 | in every reachable state, forced updates included, status, agent, times, messages and audit are what the logs say; assignments form a chain; unforced neighbours in the status log are edges of the table |
| Lifecycle.TerminalTimesMarkEntries | app/modules/applications/service.py:375-383 | in every run each of the three terminal times is set exactly when the log has such an entry, and is the time of the last one |
| Lifecycle.RunIsOrderlyIff | app/modules/applications/service.py:198-208 | a run keeps the order throughout if and only if each of its forced updates meets the guard of SafeMove: Received only as the first entry, a received case without assignment, an unassigned one received or cancelled, the terminal time set that of the status |
| Lifecycle.ForcedUpdateKeepsOrderIff | app/modules/applications/router.py:334-351 | a forced update keeps the order if and only if its status is in the table and not Received, an unassigned case is only cancelled, and a closed one keeps its status |
| Lifecycle.UnforcedRunsAreOrderly | app/modules/applications/service.py:198-208 | runs without forced updates keep that order throughout |
| Lifecycle.TerminalIsAbsorbing | app/modules/applications/constants.py:19-29 | in unforced runs a terminal status, its time and the status log are final |
| Lifecycle.QueueIsExact | app/modules/applications/repository.py:72-78 | in unforced and in guarded runs the unassigned queue is exactly the received cases, these are exactly the claimable ones, and every other open case has an agent |
| Lifecycle.OnlyHoldersChangeStatus | app/modules/applications/service.py:201-202 | every status entry written by an agent is by an agent who had been given the case |
| Lifecycle.EventWritesLogs | app/modules/assignments/service.py:100-129 | the exact assignment and status entries of every event: whom it gives the case to, which status it sets, in whose name |
| Lifecycle.EventIsAuditedAndAnnounced | app/modules/assignments/service.py:93-140 | the audit entry of every assignment, without actor for the system's, and the message of every announced status |
| Lifecycle.TransitionAcceptedIff | app/modules/applications/service.py:198-208 | a status update passes exactly if forced, or along the table by the case's client or agent |
| Lifecycle.CancellationNeedsOwnerAndStatus | app/modules/applications/service.py:164-184 | a client cancellation succeeds exactly for the owner and where the table has the edge; its inner check never fails |
| Lifecycle.ClosedCaseEvent | app/modules/assignments/service.py:122-129 | a closed case is given to an agent exactly by the admin's assignment, by the admin's scoring with a winner, or by the job with a winner if nobody has the case, so never by a claim; only a forced update touches its status log |
| Lifecycle.ClosedCaseIsGivenIff | app/modules/assignments/jobs.py:20-33 | over an unforced run a closed case changes hands exactly when one of these events comes |
| Lifecycle.SubmittedIsOrderly | app/modules/applications/service.py:90-121 | a submitted case starts out consistent with its logs and queued |
| Lifecycle.LogsGrow | app/modules/applications/repository.py:119-129 | logs are append-only |
| Lifecycle.CaseRow.Submit | app/modules/applications/service.py:90-116 | the new row and its first log entry |
| Lifecycle.CaseRow.ApplyStatusChange | app/modules/applications/service.py:366-396 | status, terminal time, log entry and message change together |
| Lifecycle.CaseRow.ApplyCheckedStatusChange | app/modules/assignments/service.py:60-98 | the same behind the check of the transition table; nothing changes on refusal |
| Lifecycle.CaseRow.DoAssign | app/modules/assignments/service.py:100-140 | agent, time, log and audit change together; only a received case changes status, and that never fails |
| Lifecycle.CaseRow.TransitionStatus | app/modules/applications/service.py:186-218 | the access and table checks of unforced changes; forced ones pass unchecked |
| Lifecycle.CaseRow.CancelApplication | app/modules/applications/service.py:164-184 | the client's cancellation with its errors |
| Lifecycle.CaseRow.ClaimLocked | app/modules/assignments/service.py:264-274 | the claim of a locked row with its errors |
| RateLimit.SlidingWindowBound | app/core/ratelimit.py:19-24 | any interval of one window admits at most 2 * limit - 1 requests, for any interleaving of INCR and EXPIRE |
| RateLimit.SlidingWindowBoundIsReached | app/core/ratelimit.py:19-24 | that number is attained for every limit from 1 and window from 2 seconds |
| RateLimit.EpochAdmitsFirstLimit | app/core/ratelimit.py:19-24 | served one at a time, exactly the first `limit` requests of each epoch pass, and rejected ones do not prolong it |
| RateLimit.ServedSlidingWindowBound | app/core/ratelimit.py:19-24 | the sliding-window bound for requests served one at a time |
| RateLimit.RedisRateLimiter.Enforce | app/core/ratelimit.py:19-24 | counts under its own key only and answers by the count |
| Lockout.LockoutSlidingWindow | app/modules/auth/service.py:518-545 | between successful logins no interval of one window sees more than 2m - 2 evaluated wrong passwords (1 for m <= 1) |
| Lockout.LockoutBoundIsReached | app/modules/auth/service.py:518-536 | that number is attained for every m >= 2 and window from 2 seconds |
| Lockout.ReachableConsistent | app/modules/auth/service.py:525-535 | a counter at the limit never outlives the lock marker it raised |
| Lockout.LoginIsExact | app/modules/auth/service.py:174-186 | in every run a request is locked out exactly until the latest lock ends, and otherwise the password decides; a lock is set by the failure that brings the count of its window to the limit |
| Lockout.AuthService.Login | app/modules/auth/service.py:165-186 | locked requests are refused unseen, failures are counted, success clears; other identifiers are untouched |
| Lockout.AuthService.RecordLoginFailure | app/modules/auth/service.py:518-536 | the counter with its one expiry, and the marker from the limit on |
| Lockout.AuthService.AssertNotLocked | app/modules/auth/service.py:538-541 | refuses while the marker lives |
| Lockout.AuthService.ClearLockout | app/modules/auth/service.py:543-545 | drops both keys |
| Sessions.ValidationIsExact | app/modules/auth/tokens.py:98-107 | a token validates exactly until its record lapses or a refresh or sign-out uses it up |
| Sessions.ValidatesIffUsable | app/modules/auth/tokens.py:98-107 | told from the events alone: a token validates exactly from its login or refresh for the TTL of that role, until it is presented to sign out or to refresh an active account |
| Sessions.RefreshIsExact | app/modules/auth/service.py:483-497 | a refresh yields a token exactly for an active account and a usable token, else it is refused and changes nothing; sessions come only from logins and such refreshes |
| Sessions.OneValidTokenPerLineage | app/modules/auth/service.py:483-516 | at most one token that goes back to a login validates at any time |
| Sessions.UsedTokenStaysDead | app/modules/auth/service.py:317-324 | a rotated or signed-out token never validates again, at any later time |
| Sessions.OtherLineagesUnaffected | app/modules/auth/tokens.py:132-133 | an event changes the validity of tokens of its own lineage only |
| Sessions.LineageKeepsUser | app/modules/auth/service.py:483-497 | a refreshed session belongs to the user who logged in |
| Sessions.RevocationPermanentIff | app/core/config.py:46-47 | revocation is permanent in all runs if and only if no refresh lifetime exceeds 86400 seconds |
| Sessions.MarkerLapsesFirst | app/modules/auth/tokens.py:132-133 | with a longer lifetime a token signed out at once is accepted a day later |
| Sessions.TokenService.IssueSessionBundle | app/modules/auth/tokens.py:55-96 | a fresh token and family with the lifetime of the role |
| Sessions.TokenService.ValidateRefreshToken | app/modules/auth/tokens.py:98-107 | the record, unless it or its family is gone |
| Sessions.TokenService.RevokeRefreshFamily | app/modules/auth/tokens.py:132-133 | the marker of the family, for 86400 seconds |
| Sessions.TokenService.RefreshSession | app/modules/auth/service.py:483-497 | issues the new token first and then revokes the presented one; refuses inactive users |
| Sessions.TokenService.EndSession | app/modules/auth/service.py:317-324 | revokes a valid token's family and ignores any other |
| Sessions.TokenService.OpenSession | app/modules/auth/service.py:499-516 | a login starts a lineage of its own |
| Otp.GuessBudgetHolds | app/modules/auth/otp.py:75-95 | evaluated guesses plus those still open never exceed the budget times the challenges created |
| Otp.VerifyIsExact | app/modules/auth/otp.py:75-95 | told from the events alone: right exactly for the code of the latest creation, in time, within the budget and before it was solved; wrong with the guesses left for any other code; expired otherwise |
| Otp.CreatedIff | app/modules/auth/otp.py:55-73 | a challenge is created exactly by a creation, or a resend without another one less than a cooldown before |
| Otp.GuessesPerChallenge | app/modules/auth/otp.py:81-92 | one challenge is guessed at most max_attempts times (at least once) |
| Otp.SuccessIsSpent | app/modules/auth/otp.py:94-95 | no challenge succeeds twice |
| Otp.ExpiryIsFixedAtCreation | app/modules/auth/otp.py:86-91 | wrong guesses leave the expiry at creation plus TTL, the time that the record announces |
| Otp.ResendsAreSpaced | app/modules/auth/otp.py:63-67 | codes are sent again at least one cooldown apart |
| Otp.OtpService.CreateChallenge | app/modules/auth/otp.py:34-53 | a challenge replaces the stored one, with full budget and TTL |
| Otp.OtpService.ResendChallenge | app/modules/auth/otp.py:55-73 | refused while cooling down; otherwise a new challenge |
| Otp.OtpService.VerifyChallenge | app/modules/auth/otp.py:75-95 | expired, wrong with the guesses left, or right and spent |
| Maintenance.BoundedStaleness | app/core/middleware.py:161-196 | for any number of processes, any interleaving of reads in flight, commits and invalidations, and any latency L of the requests, an answer was the committed flag at most 59 + L + max(59, L) seconds ago |
| Maintenance.SettledFlagIsSeen | app/core/middleware.py:161-196 | a flag left alone for longer than that is what everyone answers |
| Maintenance.StalenessBoundIsReached | app/modules/platform/service.py:51-70 | the bound is attained for every latency, by a read between the invalidation and the commit of an update |
| Maintenance.ReadIsARun | app/core/middleware.py:161-196 | an undisturbed call is one run of the step protocol, with the same answer and effect |
| Maintenance.MaintenanceCache.GetMaintenanceMode | app/core/middleware.py:161-196 | memory, then Redis, then database, refreshing the caches on the way |
| Maintenance.MaintenanceCache.InvalidateAsync | app/core/middleware.py:33-43 | clears the memory of this process and the shared key |
| Maintenance.MaintenanceCache.UpdateSettings | app/modules/platform/service.py:51-70 | clears the caches before the flag is committed, and only when the flag is part of the update |
| Payments.LedgerIsConsistent | app/modules/payments/service.py:163-258 | over any run each paid payment has one audit entry and one receipt message, audited and paid amounts agree, receipts are distinct, paid means receipt and time set, and an application is paid iff a payment of it is |
| Payments.FinalPaymentsAreFrozen | app/modules/payments/service.py:213-219 | paid and timed-out payments never change again |
| Payments.PaidApplicationIsClosed | app/modules/payments/service.py:74-75 | a paid application stays paid and gets no further payment |
| Payments.TimeoutSettlesMomo | app/modules/payments/jobs.py:17-35 | after its timeout job a mobile-money payment is settled, then for the rest of the run, if and only if it was so before, the gateway does not report it paid, or a drawn receipt number is unused; the job leaves card payments alone |
| Payments.ConfirmationSucceedsIff | app/modules/payments/service.py:207-231 | a confirmation succeeds exactly for a payment that has not timed out and, if open, finds an unused receipt number |
| Payments.TwoOpenPaymentsCanBothBePaid | app/modules/payments/service.py:74-75 | two payments of one application that have not timed out, both open or one paid, can both be paid |
| Payments.OneLiveKeptIff | app/modules/payments/service.py:74-75 | an event keeps an application at one payment that has not timed out, unless it is an accepted initiation beside such a payment |
| Payments.OneLiveThroughoutIff | app/modules/payments/service.py:61-161 | over a run it stays so if and only if every accepted initiation finds only timed-out payments; at most one is then ever paid |
| Payments.OneLiveRulesOutTwoPaid | app/modules/payments/service.py:187-231 | on a consistent ledger two payments of an application can come to be paid without a further initiation if and only if two have not timed out |
| Payments.FirstUnusedIsFresh | app/modules/payments/service.py:290-298 | the generated number is the first drawn one that no payment has; none exactly when all are taken |
| Payments.MoveOf | app/modules/payments/jobs.py:17-46 | each entry point does nothing, adds a row, times out or books one payment |
| Payments.EventOnPayment | app/modules/payments/service.py:163-219 | an open payment becomes paid exactly by a poll of its owner, a webhook, a timeout job or a card job that reports it paid and draws an unused receipt, and timed out exactly by a timeout job that does not; nothing else changes it |
| Payments.PaymentIsSettledIff | app/modules/payments/jobs.py:17-46 | over any run a payment is paid exactly if such an event came, and timed out exactly if such a job ran |
| Payments.PaidPaymentIsAsEventSaid | app/modules/payments/service.py:213-219 | a paid payment bears the time of that event and a number it drew that no payment had |
| Payments.InitiationIsExact | app/modules/payments/service.py:72-154 | a payment is opened exactly for the client's unpaid application with a tier, a supported method and a credential, for the platform fee alone |
| Payments.PaymentOrigin | app/modules/payments/service.py:72-154 | every payment of a run comes from one such initiation and keeps its terms |
| Payments.PaymentsService.GenerateReceiptNumber | app/modules/payments/service.py:290-298 | the retry loop over 20 draws |
| Payments.PaymentsService.InitiatePayment | app/modules/payments/service.py:61-161 | the checks in their order and the new payment for the platform fee |
| Payments.PaymentsService.ConfirmPayment | app/modules/payments/service.py:207-245 | books payment, application, message and audit entry together; an error changes nothing |
| Payments.PaymentsService.GetPaymentStatus | app/modules/payments/service.py:163-185 | confirms a processing payment that the gateway reports paid |
| Payments.PaymentsService.HandleCardWebhook | app/modules/payments/service.py:187-205 | confirms the found payment if it is reported paid |
| Payments.PaymentsService.PaymentTimeoutJob | app/modules/payments/jobs.py:17-35 | confirms or times out a processing payment |
| Documents.DocumentsFormChains | app/modules/documents/service.py:112-134 | after any uploads and removals at most one document per requirement is active; links are injective, stay in the requirement, go forward and raise the version by one; replaced documents are inactive |
| Documents.ServedIsARun | app/modules/documents/service.py:59-137 | what a series of requests does to the documents is what its accepted uploads and removals do, in order |
| Documents.RequestsKeepChains | app/modules/documents/service.py:112-134 | so the chain properties hold after any requests, accepted or refused |
| Documents.UploadAcceptedIff | app/modules/documents/service.py:59-110 | an upload is accepted exactly from a user who may act on the application, for the first requirement with the key, within its size and of an allowed type |
| Documents.RemovalAcceptedIff | app/modules/documents/service.py:213-222 | a removal is accepted exactly from the owner, for a document of the application, in the statuses from which the table lets a case be cancelled |
| Documents.VersionIsPosition | app/modules/documents/service.py:113-115 | a document's version is its position in its chain |
| Documents.OnlyTheNewestIsActive | app/modules/documents/service.py:116-133 | following the links ends at the newest document of the chain, and no other one is active |
| Documents.DocumentIsAsEventsTell | app/modules/documents/service.py:112-134 | told from the events alone: a document is active exactly until the next upload for its requirement or its removal, and linked exactly to the upload that replaced it |
| Documents.DocumentsStay | app/modules/documents/service.py:206-224 | rows are never deleted, and replaced or removed documents never come back |
| Documents.FindActive | app/modules/documents/repository.py:26-40 | an active document of the requirement, or none if there is none |
| Documents.CountChunks | app/modules/documents/service.py:81-98 | the running total refuses exactly the streams over the limit and otherwise is their size |
| Documents.StreamIsFrontPart | app/modules/documents/service.py:84-92 | the stream ends at the first empty chunk and is the sum of those before |
| Documents.DocumentsService.UploadDocument | app/modules/documents/service.py:59-137 | the checks in their order, then the version and link step |
| Documents.DocumentsService.DeactivateDocument | app/modules/documents/service.py:206-224 | the checks in their order, then the flag |
| FormCards.BuildApplicationConfig | app/modules/services/service.py:52-100 | one non-empty card per id, in order of first appearance, holding exactly its fields in sorted order |
| FormCards.IdsInOrder | app/modules/services/service.py:56-65 | card ids are distinct and ordered by first appearance |
| FormCards.CardsHoldEveryField | app/modules/services/service.py:57-95 | all cards together are a permutation of the given fields |
| FormCards.AnswersMatchFields | app/modules/services/service.py:66-95 | each returned field has the key, kind and condition of its form field, and is optional exactly if not required |
| FormCards.CardsAreNamed | app/modules/services/service.py:58-65 | no card lacks an id or a title; unnamed ones get the defaults |
| FormCards.SortedIsStable | app/modules/services/service.py:57 | the fields are sorted, none is lost, and equal ranks keep their order |

## Left out

- Routers, response schemas, cookies, CORS, logging, tracing and message texts: plumbing; a message or audit row is only recorded as appended.
- SQL, Redis, the job queue, file storage, e-mail and image checks as such: sequences, maps with expiry and parameters stand for them.
- Password hashing, JWT encoding, TOTP, backup codes, identifier normalisation: foreign libraries.
- Analytics, leaderboards, oversight, broadcasts, seed data, migrations, retention labels: reports and listings over the tables modelled here, without state transitions of their own.
- `rotate_refresh_token`: the service does not call it; the database rows of refresh tokens are not modelled, as validity is decided by Redis alone.
- The VAT share in `get_receipt`: depends on float rounding.
- `compute_sla_deadline` and `compute_sla_state`: the deadline is a parameter of the submission.
- Float rounding of scores and sub-second clock effects, among them the rounding of Redis TTLs when a wrong code rewrites its key.
- A crash between two commands of one request, except for the rate limiter, whose EXPIRE may come late or never.
- Start-up of a process before its database is configured, when the maintenance flag reads as off.
- Sessions.OneValidTokenPerLineage: refreshes and sign-outs are atomic here; two refreshes that validate the same token before either revokes it are not covered.
- Lockout.LockoutSlidingWindow: logins of one identifier are served one at a time; requests that pass the lock check together are not covered.
- Otp.GuessBudgetHolds: guesses on one challenge are served one at a time.
- ClaimRace.ExactlyOneClaimWins: claims only; the auto-assignment job and the admin's assignment take no lock and are modelled serially.
- DailyCap.CapsHoldInEveryRun: settings stay fixed during the run; a cap that an admin lowers under the current count is only respected by later checks.
- Payments.LedgerIsConsistent: requests and jobs are serial; two confirmations of one payment in flight together are not covered.
- Payments.PaymentsService.HandleCardWebhook: the lookup by provider transaction is a parameter, because the gateway may repeat an id and the query then returns any of the rows.
- Documents.DocumentsFormChains: uploads and removals are serial; two uploads for one requirement in flight together are not covered.
- Documents.DocumentsService.UploadDocument: the stored file, its deletion after a refusal, and the later quality check are not modelled.
- FormCards.BuildApplicationConfig: labels, help texts, options, placeholders, lengths and the step title are passed through by the source and left out.
