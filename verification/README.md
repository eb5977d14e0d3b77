# Hymical Forms: a verified model

Hymical Forms accepts HTML form submissions over HTTP, stores each one together with the webhook
delivery it owes, and lets any number of worker processes send those deliveries with retries. This
project models the logic that has to hold across processes and across restarts, and proves it with
Dafny. `dafny verify dfyconfig.toml` checks everything.

## What is modelled

**The delivery outbox.** `Operations.dfy` says what each committed database statement makes of the
stored rows. `Protocol.dfy` interleaves those statements: API requests going through lookup, insert,
unique violation and second lookup; workers claiming, reclaiming after a lease, completing with or
without ownership, and crashing; replays of failed deliveries; retention sweeps that read identifiers
in one step and delete them in a later one; and an operator who deletes any submission. A run is any
sequence of such steps in any order by any number of processes. `Invariants.dfy` and
`Preservation.dfy` prove what every reachable state satisfies; `Fencing.dfy`, `Retries.dfy`,
`Retention.dfy`, `Sweeping.dfy` and `Idempotency.dfy` prove the guarantees over whole runs. `Database.dfy` is the
storage layer in its own form, a class whose methods update the rows in place; each method is proved
equal to the function the protocol steps by, and `Refinement.dfy` closes the circle. `Worker.dfy` is
the worker's batch on top of that class, and `Migration.dfy` the data statements of revision 0005.

**The rate limiter.** `RateLimiting.dfy` has the window arithmetic, the counter table as a class, and
the bound on any interleaving of increments and sweeps.

**The rest.** `Paging.dfy` is keyset pagination over a table that stands still or changes meanwhile;
`Json.dfy` and `Csv.dfy` are the printers the service uses beside parsers written from RFC 8259 and
from section 2 of RFC 4180; `Export.dfy` and `Ingestion.dfy` are what is printed and what is
fingerprinted; `Listing.dfy` is the key order of an insertion-ordered dictionary; `Middleware.dfy` is
the request body cap as a message-driven machine.

Instants, leases and delays are exact reals. Identifiers and claim tokens are numbers of which the
environment always supplies fresh ones. What a webhook receiver answered, whether the database could be
reached, the dice of the counter sweep and everything else outside the service are parameters.

## Where the code and its documentation differ

- `src/hymical_forms/models.py:319-324` says a delivery's two counters are equal until something is
  replayed. A completion by a superseded worker raises `attempts` alone
  (`src/hymical_forms/storage.py:821-829`), so they are not: `Retries.CountersCanDifferWithoutReplay`
  is a five-step run in which they differ, and `Retries.CountersDifferBySuperseded` proves that they
  are equal exactly when no superseded completion was recorded.
- `src/hymical_forms/ratelimit.py:101-105` says a window start is floored. `int()` truncates towards
  zero, which is the floor from the epoch on; `RateLimiting.WindowStartPrecedesExactly` gives the exact
  condition under which a start does not lie after its own instant, and
  `RateLimiting.WindowCanStartLate` an instant for which it does.
- `src/hymical_forms/worker.py:100-104` says that a result which could not be recorded does not cost the
  rest of the batch its records. The rollback expires every claimed object, so naming the job in the log
  line that follows rereads it (`src/hymical_forms/worker.py:105-112`), and a database that is still out
  of reach then ends the batch: `Worker.ANeighbourCanBeLost`. `Worker.OnlyAnUnreportedFailureCostsARecord`
  gives the exact condition. What was claimed still comes due when its lease ends.

## Model

| member | source | states |
|---|---|---|
| Preservation.InitHolds | src/hymical_forms/models.py:157-390 | an empty database satisfies the invariant |
| Preservation.StepHolds | src/hymical_forms/storage.py:288-977 | every legal step of any process keeps the whole invariant: row consistency, grants, links, history, request stages |
| Preservation.RunHolds | src/hymical_forms/storage.py:288-977 | so every reachable state satisfies it, whatever the interleaving |
| Preservation.OnlyTheKeyCollides | src/hymical_forms/storage.py:331-349 | an insert can be refused for one reason only, a key already spent, so a violation always has an earlier submission behind it |
| Preservation.OwedIsQueued | src/hymical_forms/storage.py:365-369 | a replayed answer's lookup finds a delivery exactly when the first request came with a webhook |
| Operations.FindByKey | src/hymical_forms/storage.py:270-285 | finds a submission carrying the endpoint and key, or there is none |
| Operations.NewRowOk | src/hymical_forms/storage.py:400-414 | a freshly queued row meets the row invariant: nothing held, nothing finished, allowance untouched |
| Operations.ClaimedRowOk | src/hymical_forms/storage.py:694-705 | claiming a due row keeps it consistent, token and lease set together |
| Operations.SettledRowOk | src/hymical_forms/storage.py:825-841 | every branch of a completion keeps the row consistent, so the completion check constraint never fires |
| Operations.RequeuedRowOk | src/hymical_forms/storage.py:966-973 | replaying keeps the row consistent |
| Refinement.ReachableStatesMeetTheSchema | src/hymical_forms/models.py:164-181 | no reachable state violates a unique, check or foreign-key constraint declared on these tables |
| Refinement.ReachableRowsAreConsistent | src/hymical_forms/models.py:273-277 | in every reachable state: processing iff a token is held iff a lease is set, completion time iff delivered or failed, unfinished rows have allowance left, and the cycle never exceeds the total |
| Refinement.ReachableLinksAgree | src/hymical_forms/storage.py:808-819 | in every reachable state an attempt agrees with its delivery about submission and destination, and a linked delivery has its submission's endpoint |
| Fencing.StepMovesRow | src/hymical_forms/storage.py:674-977 | apart from losing a deleted submission, a delivery changes only by a due claim, a recorded completion or a replay |
| Fencing.SupersededOnlyCounts | src/hymical_forms/storage.py:794-849 | a completion without the current token appends one attempt with the next number, raises the total by one and changes nothing else anywhere |
| Fencing.ControlMovesOnlyByRight | src/hymical_forms/storage.py:794-849 | state, lease, token, cycle counter, due time and completion time move only under a due claim, the owner's completion or a replay |
| Fencing.ControlIsSixColumns | src/hymical_forms/storage.py:821-829 | these six columns and all of them are what a superseded worker may not touch |
| Fencing.OwnedSettles | src/hymical_forms/storage.py:827-841 | the owner's completion releases the claim, spends one attempt of the cycle, and sets the due or completion time that goes with its new state |
| Fencing.OutcomeDecides | src/hymical_forms/webhooks.py:115-124 | outcome by outcome: a timeout or network error waits for another attempt while the allowance lasts, an HTTP error only with status 500 and up, 408, 425 or 429, and all else that did not succeed has failed |
| Fencing.ClaimWritesOnlyTheClaim | src/hymical_forms/storage.py:694-705 | a claim writes state, lease and token and no other column |
| Fencing.DeadStaysDead | src/hymical_forms/models.py:335-345 | a token once superseded or cleared is never current again, over any run |
| Fencing.EachClaimWinsAtMostOnce | src/hymical_forms/storage.py:685-687 | however often one claim is presented, it settles its delivery at most once |
| Fencing.LiveClaimsAreDisjoint | src/hymical_forms/storage.py:684-707 | two jobs held anywhere never own the same delivery at once |
| Fencing.SecondClaimWaitsOutTheLease | src/hymical_forms/storage.py:689-707 | from the conditional update alone, a second claim of a delivery whose first claim was not completed comes no earlier than the end of the first lease |
| Fencing.AbandonedClaimComesDue | src/hymical_forms/storage.py:641-657 | a row still under a claim is claimable exactly from the end of that claim's lease |
| Retries.AttemptsAreConserved | src/hymical_forms/storage.py:799-849 | over any run the lifetime total rises by exactly the owned plus the superseded completions, across all cycles |
| Retries.CycleCountsOwned | src/hymical_forms/storage.py:827-829 | without a replay the cycle counter rises by exactly the owned completions |
| Retries.CountersDifferBySuperseded | src/hymical_forms/models.py:319-324 | without a replay the counters differ by the superseded completions, and are equal iff there were none |
| Retries.CountersCanDifferWithoutReplay | src/hymical_forms/models.py:319-324 | a legal run without any replay that ends with the counters at 1 and 0 |
| Retries.AllowanceBoundsOwnedAttempts | src/hymical_forms/webhooks.py:151-157 | over any run at most max_attempts owned completions happen for each entry into the queue |
| Retries.RetryableCompletionWaits | src/hymical_forms/storage.py:833-835 | a retryable owned completion short of the allowance leaves the row pending until now plus that attempt's delay |
| Retries.WaitIsKept | src/hymical_forms/storage.py:653-656 | nothing but a claim moves a waiting delivery or its due time |
| Retries.NextClaimWaitsOutTheDelay | src/hymical_forms/webhooks.py:137-149 | after the k-th retryable owned completion of a cycle, at n, the next claim is no earlier than n plus the k-th delay, over any run |
| Retries.RetryComesDueExactly | src/hymical_forms/storage.py:653-656 | and over any run without a claim or an operator it is claimable exactly from that instant |
| Retries.ReplayStartsAFreshCycle | src/hymical_forms/storage.py:946-976 | a replay makes the delivery due at once with its whole allowance, keeps every attempt and the total, and a second replay finds nothing to requeue |
| Retries.AttemptsAreForEver | src/hymical_forms/models.py:367-376 | a recorded attempt is never removed, renumbered or rewritten; it can only lose its deleted submission |
| Retries.NumbersAreOneToTotal | src/hymical_forms/storage.py:799-819 | a delivery's attempt numbers are exactly 1 to its total, each used once |
| Retries.AttemptNumbersOfEveryRun | src/hymical_forms/storage.py:799-849 | the same of every reachable state, where the total is owned plus superseded completions since the start |
| Retries.DeliveryIdentityIsFixed | src/hymical_forms/models.py:303-309 | destination, secret and endpoint never change over any run; the submission link can only be lost |
| Retries.DeliveredIsFinal | src/hymical_forms/storage.py:830-832 | no run moves a delivered delivery, whatever completions still arrive |
| Retention.ExpiredStays | src/hymical_forms/storage.py:602-612 | expired and eligible stays so under every step for as long as the submission exists |
| Retention.ExpiredExactly | src/hymical_forms/storage.py:602-612 | eligible is exactly: received strictly before the cutoff, and never owed a delivery or delivered |
| Retention.GoneStaysGone | src/hymical_forms/storage.py:582-588 | a deleted submission never comes back |
| Retention.SweepRemovesOnlyExpired | src/hymical_forms/storage.py:564-587 | deleting a list of identifiers read arbitrarily long ago removes only submissions eligible now |
| Retention.SweepKeepsTheRecord | src/hymical_forms/storage.py:577-588 | a sweep removes no delivery and no attempt, and unlinks only deliveries already delivered |
| Retention.RunKeepsPayloads | src/hymical_forms/retention.py:40-47 | over any run every pending, processing or failed delivery keeps its submission |
| Retention.NeededPayloadIsStored | src/hymical_forms/models.py:286-293 | in every reachable state such a delivery links to a stored submission, unchanged since its request committed it |
| Retention.LoadCannotMissWhileCurrent | src/hymical_forms/storage.py:713-736 | while its claim is current a worker finds the submission; later it finds it iff the delivery is still linked |
| Retention.OnlyASupersededCompletionIsRefused | src/hymical_forms/storage.py:808-819 | a completion is refused only if its delivery is unlinked, already delivered and no longer held by the worker: exactly then for a worker presenting the link it loaded, and never for one that reread its row |
| Retention.UnfinishedComesDue | src/hymical_forms/storage.py:635-657 | in every reachable state without operator deletes a waiting delivery is claimable exactly from its due time and a held one exactly from the end of its lease |
| Retention.FailedCanBeReplayed | src/hymical_forms/storage.py:955-977 | in every such state a failed delivery, however often replayed before, is put back by a replay with a fresh cycle and is claimable exactly from then on |
| Retention.UnlinkedIsNeverQueued | src/hymical_forms/storage.py:962-965 | even when an operator deletes any submission, a delivery without one is never claimed or requeued |
| Idempotency.RetriesResolveToOneSubmission | src/hymical_forms/storage.py:318-351 | for any interleaving of any number of requests with one key and no sweep of it: one submission holds the key, only its own request is told it was not a replay, equal content is told its identifier and queued state, other content is refused |
| Idempotency.SettledRequestNamesHolder | src/hymical_forms/storage.py:354-369 | every answered request was told what the one holder of its key implies for it |
| Idempotency.ContentDecidesTheRetry | src/hymical_forms/ingestion.py:75-96 | short of a digest collision a keyed request is refused iff its fields differ from the holder's, and otherwise answered with the holder's identifier |
| Idempotency.HolderIsUnique | src/hymical_forms/models.py:164-176 | at most one stored submission holds an endpoint's key |
| Idempotency.OneDeliveryPerSubmission | src/hymical_forms/models.py:268-272 | a stored submission owes a delivery iff its request carried a webhook, and never two |
| Idempotency.AcceptedMeansQueued | src/hymical_forms/storage.py:372-414 | the step that answers "stored" is the step that stores the submission and its delivery, due from the moment it was received |
| Idempotency.LosersLeaveNothing | src/hymical_forms/storage.py:338-343 | a request that did not store its own submission left neither submission nor delivery behind |
| Idempotency.KeylessRequestsAlwaysStore | src/hymical_forms/storage.py:313-316 | a request without a key stores a submission of its own |
| Idempotency.SweepFreesTheKey | src/hymical_forms/models.py:172-176 | the guarantee lasts as long as the row: deleting the holder lets the next request with its key store anew |
| Idempotency.AnsweredWithinItsSteps | src/hymical_forms/storage.py:313-351 | in any run, whatever other processes do in between, a request is answered after at most four steps of its own and stays answered |
| Idempotency.RequestsTerminate | src/hymical_forms/storage.py:313-351 | every own step of an unanswered request brings its answer nearer |
| Idempotency.OthersLeaveRequestsAlone | src/hymical_forms/storage.py:331-349 | no step of anybody else moves a request |
| Database.Database.FindByIdempotencyKey | src/hymical_forms/storage.py:270-285 | the lookup returns the submission holding the key |
| Database.Database.Replayed | src/hymical_forms/storage.py:354-369 | equal content resolves to the earlier submission with the delivery it owes, other content is refused |
| Database.Database.CommitSubmission | src/hymical_forms/storage.py:372-414 | the commit stores the submission and its delivery together, or is refused and changes nothing |
| Database.Database.CommitOrResolve | src/hymical_forms/storage.py:331-351 | a violated commit answers with the stored row that holds the key now, and with the delivery it owes, or refuses other content; the answer always is the row the database holds |
| Database.Database.StoreSubmission | src/hymical_forms/storage.py:288-351 | a retry is answered with the stored row of the earlier submission, its key and content equal, and with whether it owes a delivery; other content is refused; otherwise exactly this submission and its delivery are added |
| Database.Database.SelectDue | src/hymical_forms/storage.py:672-680 | selects due rows, as many as there are up to the limit, ordered by due time with none due earlier left out |
| Database.Database.ClaimDueDeliveries | src/hymical_forms/storage.py:660-710 | claims the earliest due deliveries up to the limit, each under its own token, and touches nothing else |
| Database.Database.ClaimCandidates | src/hymical_forms/storage.py:682-710 | the conditional updates, one per candidate, claim every selected row |
| Database.Database.ClaimOne | src/hymical_forms/storage.py:692-707 | one conditional update succeeds iff the row is linked and waiting past its due time or held past its lease |
| Database.ClaimAllRows | src/hymical_forms/storage.py:684-707 | after a batch each candidate carries its own claim and every other row is as it was |
| Database.NextIsClaimable | src/hymical_forms/storage.py:689-707 | claiming some candidates leaves the rest as due as they were selected |
| Database.Database.LoadSubmissions | src/hymical_forms/storage.py:713-736 | maps each claimed delivery to the submission it carries, or fails iff one is missing |
| Database.Database.CompleteAttempt | src/hymical_forms/storage.py:755-852 | records the attempt and settles the delivery under the presented token, with the state each outcome calls for, or is refused and changes nothing |
| Database.Database.RequeueFailedDelivery | src/hymical_forms/storage.py:933-977 | requeues iff the row is failed and linked, and reports the row the database settled on |
| Database.Database.SelectExpired | src/hymical_forms/storage.py:569-573 | reads eligible identifiers, as many as there are up to the batch size |
| Database.Database.DeleteSubmissions | src/hymical_forms/storage.py:577-589 | deletes by identifier, unlinks what referred to it, and counts the rows removed |
| Database.Database.SweepBatch | src/hymical_forms/storage.py:569-589 | one batch removes as many eligible submissions as it read |
| Database.Database.DeleteExpiredSubmissions | src/hymical_forms/storage.py:548-593 | with no other deleter the sweep removes exactly min(eligible at the start, batch size times batches), returns that number, and a shortfall means nothing eligible is left |
| Sweeping.TotalIsWhatThisRunRemoved | src/hymical_forms/storage.py:580-593 | over any run, whoever else deletes, the returned total counts exactly the submissions this sweep removed, each once |
| Sweeping.ShortBatchLeavesNothing | src/hymical_forms/storage.py:569-591 | over any run, after a batch that read fewer than its size nothing that was eligible when the sweep began is left |
| Database.BatchExtendsSweep | src/hymical_forms/storage.py:567-591 | a further batch removes only what was eligible at the start, and a short batch means all of it is gone |
| Database.RemoveKeepsEligibility | src/hymical_forms/storage.py:596-612 | deleting submissions makes no other one eligible or protected |
| Refinement.ClaimedBatchIsARun | src/hymical_forms/storage.py:684-707 | a claimed batch is a run of single claims, so other processes may step in between |
| Refinement.AloneRequestIsStoreSubmission | src/hymical_forms/storage.py:313-351 | a request nobody races ends with the answer and the tables of the storage operation |
| Refinement.RetentionBatchIsARun | src/hymical_forms/storage.py:569-588 | a sweep's read and delete are two steps of the protocol |
| Refinement.RecordedBatchIsARun | src/hymical_forms/worker.py:94-112 | recording a batch is a run of single completions, so other processes may step in between |
| Worker.ClaimEndsOneWay | src/hymical_forms/worker.py:71-136 | the accounting of a claim over any run: it stands exactly as granted and settled nothing, or it settled its delivery once and is dead, or it is dead, settled nothing, and the delivery was claimed again no earlier than the end of its lease |
| Worker.EveryClaimEndsOneWay | src/hymical_forms/worker.py:52-136 | so ends every claim ever granted, its lease counted from the instant of the claim |
| Worker.ProcessBatch | src/hymical_forms/worker.py:37-136 | claims, loads, captures tokens and records; never abandons a batch in a database that meets its schema; the final tables are exactly the recorded results |
| Worker.RecordResults | src/hymical_forms/worker.py:93-112 | a failed recording is rolled back and the next result gets its turn with its row reread, unless reporting the failure fails too, which ends the batch |
| Worker.RecordedExactly | src/hymical_forms/worker.py:94-112 | which results of a batch are recorded, before and after a failure, and the link a reread one carries |
| Worker.OnlyAnUnreportedFailureCostsARecord | src/hymical_forms/worker.py:99-112 | a result recordable by itself is recorded iff every failure before it could be reread for its log line |
| Worker.ANeighbourCanBeLost | src/hymical_forms/worker.py:105-112 | a batch whose first failure cannot be reported loses its second result |
| Worker.EachRecordStandsAlone | src/hymical_forms/worker.py:94-112 | each delivery's row is settled by its own recorded result or left as it was, and no other row moves |
| Worker.OnlyRecordedAttemptsAppear | src/hymical_forms/worker.py:94-112 | the history keeps all it had and gains only recorded attempts |
| Worker.EveryRecordedAttemptAppears | src/hymical_forms/worker.py:94-98 | every recorded result is in the history under the next number of its own delivery |
| Worker.BatchAccounting | src/hymical_forms/worker.py:75-136 | with no other process in between, at the end each claimed delivery is settled by its own result, or is exactly as claimed and due again when its lease ends |
| Worker.BatchTouchesOnlyItsClaims | src/hymical_forms/worker.py:94-112 | a batch changes no delivery it did not claim |
| Worker.HeldClaimIsUntouched | src/hymical_forms/worker.py:71-75 | whatever else happens while requests are in flight, a row still carrying the captured token is exactly as claimed, and otherwise that token is dead |
| Webhooks.DelaysNeverShrink | src/hymical_forms/webhooks.py:137-149 | delays start at the capped initial one, never decrease, and stay positive and under the cap |
| Webhooks.DelayDoublesUntilCapped | src/hymical_forms/webhooks.py:143-149 | each delay is twice the one before it, or the cap |
| Webhooks.GeometricWait | src/hymical_forms/webhooks.py:147-149 | while nothing is capped the waits add up to initial times (2^k - 1) |
| Webhooks.TotalWaitClosedForm | src/hymical_forms/webhooks.py:137-157 | the total wait of a cycle in capped-geometric closed form, for every policy and length |
| Migration.DeleteUnlinked | src/hymical_forms/migrations/versions/0005_20260825_submission_retention.py:161-167 | the two deletes leave exactly the linked history, and no attempt points at a removed delivery before or after the second |
| Migration.LinkedHistoryIsKeptWhole | src/hymical_forms/migrations/versions/0005_20260825_submission_retention.py:161-167 | every linked delivery and every attempt at it survives the downgrade unchanged |
| Migration.LinkedOnlyKeepsHistory | src/hymical_forms/migrations/versions/0005_20260825_submission_retention.py:161-167 | what survives still numbers its attempts 1 to the total |
| Migration.DeliveriesFirstWouldDangle | src/hymical_forms/migrations/versions/0005_20260825_submission_retention.py:164-167 | the other order would leave dangling attempts exactly when an unlinked delivery was ever attempted |
| Migration.BackfillRestoresEndpoints | src/hymical_forms/migrations/versions/0005_20260825_submission_retention.py:78-85 | in a reachable state downgrading and upgrading again gives back every linked delivery, endpoint included |
| Migration.Backfill | src/hymical_forms/migrations/versions/0005_20260825_submission_retention.py:71-85 | the backfill gives every delivery its submission's endpoint and changes nothing else |
| RateLimiting.WindowHolds | src/hymical_forms/ratelimit.py:94-105 | a window is aligned and, from the epoch on, contains its instant |
| RateLimiting.AlignedWindowIsUnique | src/hymical_forms/ratelimit.py:101-105 | it is the only aligned window that does |
| RateLimiting.WindowStartPrecedesExactly | src/hymical_forms/ratelimit.py:101-105 | exactly when a start does not lie after its instant, for all instants |
| RateLimiting.WindowCanStartLate | src/hymical_forms/ratelimit.py:101-105 | half a second before the epoch a one-second window starts after its instant |
| RateLimiting.RetryAfterIsExact | src/hymical_forms/ratelimit.py:108-120 | section 10.2.3 of RFC 9110: a whole number between 1 and the window that lands in the next window, and no smaller whole wait leaves the refused one |
| RateLimiting.CounterIsCount | src/hymical_forms/storage.py:1129-1169 | sweeps included, a counter holds exactly the attempts made on it |
| RateLimiting.ReturnsArePositions | src/hymical_forms/storage.py:1129-1169 | under any interleaving the values returned for one subject and window are 1 to n in commit order |
| RateLimiting.ExactlyTheLimitIsAllowed | src/hymical_forms/ratelimit.py:83-91 | of n attempts in one window exactly min(n, limit) are allowed |
| RateLimiting.RateIsBounded | src/hymical_forms/storage.py:1142-1169 | any half-open interval of one window length holds at most twice the limit of allowed attempts, also while counters are swept |
| RateLimiting.SweepIsHarmless | src/hymical_forms/api/submissions.py:523-529 | a sweep takes no counter of an attempt whose own clock reads at least one longer window before the sweep |
| RateLimiting.SweepMarginIsTight | src/hymical_forms/api/submissions.py:523-529 | for every larger skew, however slightly, there is an attempt whose budget a sweep resets |
| RateLimiting.CounterTable.Consume | src/hymical_forms/storage.py:1113-1169 | the upsert inserts one or adds one, touches no other counter, and returns what it settled on |
| RateLimiting.CounterTable.DeleteExpired | src/hymical_forms/storage.py:1172-1192 | removes exactly the counters of windows starting before the cutoff, and counts them |
| RateLimiting.CounterTable.Spend | src/hymical_forms/api/submissions.py:491-510 | the unit is spent whether or not the attempt is allowed, and the judgement is of the counter after spending |
| RateLimiting.CounterTable.Admit | src/hymical_forms/api/submissions.py:364-413 | the address always pays, an unknown endpoint is never charged, and the verdict is exact: which limiter refuses first, with which wait, or admission under both limits |
| Paging.PageIsTheTop | src/hymical_forms/storage.py:1239-1243 | a page is the top of what follows the anchor: ordered, matching, never too long, and short only at the end |
| Paging.PageIsNewestFirst | src/hymical_forms/storage.py:1239-1243 | later instants stand before earlier ones, equal instants by falling identifier, and the anchor before them all |
| Paging.ListedExactly | src/hymical_forms/storage.py:615-632 | a row is listed iff it is of the endpoint and state asked for and strictly inside both time bounds |
| Paging.ListedIsOrdered | src/hymical_forms/storage.py:462-476 | the listing order is total: strictly newest first, every row once |
| Paging.NothingIsSkipped | src/hymical_forms/storage.py:1213-1243 | however the table changes between pages, a row there and matching throughout is visited |
| Paging.WalkDescends | src/hymical_forms/storage.py:1213-1243 | the pages together are strictly newest first |
| Paging.ChangingTableIsVisitedOnce | src/hymical_forms/storage.py:1213-1243 | so every such row is visited exactly once, unless a cursor row vanished and the walk was refused |
| Paging.OnlyAVanishedCursorStops | src/hymical_forms/storage.py:1233-1237 | a client following cursors is stopped only if the last row of the page it just read was there and matching then and has vanished since |
| Paging.BrowsingEnds | src/hymical_forms/storage.py:1230-1243 | with more requests than full pages of all identifiers beyond the anchor, its walk has finished or been stopped |
| Paging.PagesShowWhatWasThere | src/hymical_forms/storage.py:855-887 | a page shows only rows that were there and matching when it was read |
| Paging.WalkLength | src/hymical_forms/api/pagination.py:76-87 | every page but the last is full, and the last is not |
| Paging.StillTableIsListed | src/hymical_forms/api/pagination.py:76-87 | on a table that stands still the pages are exactly the filtered table in order, floor(n / L) + 1 of them |
| Paging.StillTableCanBeWalked | src/hymical_forms/storage.py:1230-1237 | such a walk exists: none of its cursors is refused and it ends |
| Json.RoundTrip | src/hymical_forms/export.py:104 | every value printed by json.dumps parses, by RFC 8259, back to itself, with or without ensure_ascii |
| Json.ValueRead | src/hymical_forms/export.py:104 | the same in front of any following text |
| Json.EscapedRead | src/hymical_forms/ingestion.py:91-95 | section 7 of RFC 8259: every character, surrogate pairs included, is escaped so that it reads back |
| Json.ReadsTheStandardEscapes | src/hymical_forms/export.py:104 | the parser knows the two-character escapes of section 7 of RFC 8259 and no others |
| Json.ReadsCodePoints | src/hymical_forms/export.py:104 | and its four-digit escapes and surrogate pairs, on characters of each length |
| Json.EscapesOnlyWhatItMust | src/hymical_forms/ingestion.py:91-95 | a character is escaped iff it is a quote, a backslash or a control, or must be ASCII and is not |
| Json.PrintsPairs | src/hymical_forms/ingestion.py:91-95 | arrays are printed with brackets and bare commas |
| Json.PrintsMembers | src/hymical_forms/export.py:104 | objects are printed with braces, bare commas and bare colons |
| Json.Injective | src/hymical_forms/ingestion.py:87-95 | equal texts mean equal values, even across the two modes |
| Json.AsciiTextIsAscii | src/hymical_forms/export.py:104 | with ensure_ascii the text is printable ASCII |
| Csv.RoundTrip | src/hymical_forms/export.py:120-128 | whatever the cells hold, section 2 of RFC 4180 reads the document back as exactly the rows written |
| Csv.CellRead | src/hymical_forms/export.py:120-124 | one cell, quoted or not, reads back before any separator |
| Csv.QuotesOnlyWhatItMust | src/hymical_forms/export.py:124 | a cell is quoted iff it holds a comma, a quote or a line end |
| Csv.QuotesACell | src/hymical_forms/export.py:124 | a cell with a comma and a quote, quoted and with its quote doubled |
| Csv.WritesARow | src/hymical_forms/export.py:121-127 | cells are joined by commas and rows ended by CRLF |
| Export.SafeMergesExactly | src/hymical_forms/export.py:178-193 | no guarded cell leads with a formula character, and two cells merge only when one is the other's formula marked as text |
| Export.GuardsExactly | src/hymical_forms/export.py:45-50 | exactly the cells that begin with one of the six formula leaders get an apostrophe |
| Export.TwoHeadersOneTitle | src/hymical_forms/export.py:178-193 | two different field names that share one title |
| Export.TitlesAreDistinctExactly | src/hymical_forms/export.py:124 | titles repeat exactly when a field is named like a metadata column or like another field's marked formula |
| Export.FieldNames | src/hymical_forms/export.py:149-159 | the columns are the union of the names without repeats, in the order first met |
| Export.MetInReadingOrder | src/hymical_forms/export.py:155-159 | names are met submission by submission and field by field |
| Export.Lookup | src/hymical_forms/export.py:141-145 | a field is found iff the submission carries it, with its own values |
| Export.Row | src/hymical_forms/export.py:131-146 | one guarded cell for each column, in column order |
| Export.CsvDocument | src/hymical_forms/export.py:108-128 | the text of one header and one row per submission, over the first-met columns |
| Export.TableParses | src/hymical_forms/export.py:108-128 | the whole document reads back as the table it was written from |
| Export.TableShape | src/hymical_forms/export.py:117-128 | one header and one row per submission, all of one width, and no cell a formula |
| Export.HeaderContent | src/hymical_forms/export.py:36-38 | the three metadata titles stand first, in their order, then the guarded names |
| Export.TableContent | src/hymical_forms/export.py:138-146 | by position an empty cell means an absent field, and any other decodes to exactly the stored ordered values |
| Export.CellOfOne | src/hymical_forms/export.py:143-145 | the exact cell for one value, nothing escaped for being outside ASCII |
| Export.EveryFieldHasAColumn | src/hymical_forms/export.py:155-159 | no field of any submission is left without a column |
| Export.CsvDeterminesAnswers | src/hymical_forms/export.py:108-146 | two exports with the same columns and the same text carry the same answers |
| Export.JsonDocument | src/hymical_forms/export.py:90-105 | the pieces, one per submission between two brackets, spell out a JSON text that says the export name by name |
| Export.JsonReads | src/hymical_forms/export.py:90-105 | a reader finds under each member name exactly the submission's own identifier, endpoint, timestamp, and its fields with their values, all in order; and the text is ASCII |
| Export.JsonDeterminesExport | src/hymical_forms/export.py:162-175 | two exports with the same text are the same export |
| Ingestion.BuildSubmission | src/hymical_forms/ingestion.py:162-204 | accepts exactly the non-empty lists within the limits and groups them; refuses with the count first, then the first offending item's own refusal |
| Ingestion.AcceptedExactly | src/hymical_forms/ingestion.py:207-251 | an item passes exactly when its name is non-empty, within the limit and free of C0, DEL and C1 characters, and its value is within the limit and free of NUL |
| Ingestion.RefusedExactly | src/hymical_forms/ingestion.py:207-251 | which refusal an item meets and with which numbers: the name before the value, lengths before characters |
| Ingestion.AddValueGroups | src/hymical_forms/ingestion.py:187-191 | one turn of the loop keeps names in first-met order and values in arrival order |
| Ingestion.ValuesComeInArrivalOrder | src/hymical_forms/ingestion.py:187-191 | the values under a name are those of one list after another, none dropped, added or moved |
| Ingestion.AddValueCounts | src/hymical_forms/ingestion.py:146-151 | and raises the field count by one |
| Ingestion.GroupingIsUnique | src/hymical_forms/ingestion.py:187-191 | the items determine the stored mapping |
| Ingestion.CanonicalIsInjective | src/hymical_forms/ingestion.py:84-95 | two mappings have one canonical text iff they have the same names in the same order with the same values |
| Ingestion.CanonicalReads | src/hymical_forms/ingestion.py:91-95 | the canonical text reads as one pair of name and values for each field, in order |
| Ingestion.CanonicalOfOne | src/hymical_forms/ingestion.py:91-95 | the exact text for one field with one value, nothing escaped for being outside ASCII |
| Ingestion.FingerprintsAgreeExactly | src/hymical_forms/ingestion.py:75-96 | two accepted forms have one canonical text iff names agree in first-met order and each name's values in arrival order |
| Ingestion.InterleavingIsForgottenExactly | src/hymical_forms/ingestion.py:84-95 | two neighbouring items under different names may trade places within one request iff one of the names was met before |
| Listing.DistinctIsFirstMet | src/hymical_forms/export.py:155-159 | putting keys one after another yields each once, in the order first met |
| Listing.FirstMetIsUnique | src/hymical_forms/export.py:155-159 | and that order pins the list down |
| Middleware.BodySizeLimit.Open | src/hymical_forms/middleware.py:61-66 | a declared length over the limit is refused before anything is read |
| Middleware.FirstHeaderDecides | src/hymical_forms/middleware.py:114-126 | a length is declared iff the first header of that name reads as it |
| Middleware.BodySizeLimit.LimitedReceive | src/hymical_forms/middleware.py:72-87 | a message is handed on or the error raised, and the count follows |
| Middleware.BodySizeLimit.GuardedSend | src/hymical_forms/middleware.py:89-109 | a message goes out, is replaced by the refusal, or is dropped after one |
| Middleware.NeverMoreThanTheLimit | src/hymical_forms/middleware.py:79-87 | the application is never handed more than the limit, and the cap trips exactly on a longer body |
| Middleware.OnlyDisconnectsPassTheCap | src/hymical_forms/middleware.py:79-87 | after the cap no request message is handed on and every disconnect is |
| Middleware.WithinTheLimitNothingChanges | src/hymical_forms/middleware.py:68-109 | a body within the limit makes the guard invisible in both directions |
| Middleware.WireOfEveryRun | src/hymical_forms/middleware.py:72-109 | what the client gets in every conversation that crosses the cap: all sent before it, then the guarded answer |
| Middleware.CapIsCrossedOnce | src/hymical_forms/middleware.py:79-87 | every conversation over the limit has exactly that form |
| Middleware.GuardedAnswers | src/hymical_forms/middleware.py:94-109 | after the cap only 413 is ever started, and an answer is left alone iff it already says so |
| Middleware.CutOffBodyIsAnsweredAsOne | src/hymical_forms/middleware.py:94-109 | an application that had not begun to answer gets a 413 out, its own or the refusal with nothing after it |

## Left out

- Sending: HTTP client, deadlines, signing and payload building; a request's outcome is an arbitrary result.
- Generated values: identifiers and claim tokens are fresh by assumption, as random 128-bit values are in practice.
- The SHA-256 digest: fingerprints are opaque, and `Ingestion.FingerprintsAgreeExactly` speaks of the text that is hashed.
- Endpoints: their table, their foreign key, creation, updates and the inactive state; a request carries the webhook it read.
- Management keys, authentication, routing, validation models, error envelopes, logging, settings and command line: input, output and easy lookups.
- Address and URL rules (`address_bucket`, `validate_webhook_url`): they rest on library parsers that are not part of this model.
- Form parsing: it begins at the list of name and value pairs.
- SQLite: completion is modelled as PostgreSQL has it, one atomic step under the row lock.
- One transaction for a claimed batch: the protocol lets other steps fall between its updates, which allows more runs, and a claim may pick any candidate.
- One retry policy serves all workers of a run; leases may differ from claim to claim.
- A reread row that a sweep unlinks before the completion locks it presents what was loaded, which is the protocol's other case; the worker's polling loop around a batch is left out.
- Rounding: delays, leases and instants are exact, where the code has floats and microseconds; exponents past 1023 overflow there and not here.
- The retention cutoff (`RetentionPolicy.cutoff`): one subtraction; a sweep takes any cutoff.
- Real time: termination is by measures and single steps; no process is promised to take its next step.
- Timestamps in an export are the text they are rendered as; file names and headers of a download are not modelled.
- Lone surrogates: strings are sequences of Unicode scalar values, which is what can be encoded as UTF-8.
- Numbers, booleans and null in JSON: the service prints none here, and the parser knows none.
- `Csv.RoundTrip`: text data is any character but comma, quote, CR and LF, where section 2 of RFC 4180 names only ASCII ones; rows without cells are excluded, and an export writes none.
- Identifier order in listings is the order of numbers, standing for any total order; a row's timestamp never changes during a walk.
- `Middleware.BodySizeLimit.Open`: connections that are not HTTP pass the guard untouched and have no member of their own; the refusal's body text is empty.
- Disabled rate limiting and the dice that trigger a counter sweep are parameters of the caller; a counter sweep that fails changes nothing.
- RateLimiting.RateIsBounded: for attempts from the epoch on, on clocks no more than one longer window behind a sweep; `RateLimiting.SweepMarginIsTight` shows why.
