# AI-cloudhub: verified models

This project models the parts of AI-cloudhub that carry state over long runs, and proves what
they promise over every run.

- **The job queue.** `jobs.dfy` has the records and every edit of one; `job_history.dfy` the store
  as a state machine with one event per write the service makes; `memory_store.dfy` and
  `job_service.dfy` are the in-memory store and the service as classes; each service method keeps
  the run so far and states which events it adds to it. `job_runs.dfy`, `outbox_runs.dfy`, `job_keys.dfy`,
  `reclaim.dfy`, `job_laws.dfy`, `claiming.dfy`, `claim_race.dfy`, `delivery.dfy`, `paging.dfy` and `cursor.dfy`
  hold the results about whole runs, `job_laws.dfy` in plain fields and numbers. Time is a parameter: nanoseconds, 0 for no time.
- **hubd.** `mount_ledger.dfy` states the discipline of the trail of effects, `hubd_pass.dfy` what a pass
  makes of one binding, given what the outside shows of it; `hubd.dfy` is the controller, for
  every answer of the outside.
- **Limiters.** `rate_limit.dfy` and `auth_limit.dfy`.
- **Tokens.** `access_policy.dfy`, `prefix_cover.dfy` and `agent_epoch.dfy` for agents, `refresh.dfy` for refresh
  rotation under concurrent callers.
- **Runner.** `output_tail.dfy` for captured output up to the store, `env_filter.dfy` for the
  environment of agent processes, with `text.dfy`, `sets.dfy` and `sorting.dfy` as shared ground.

What the proofs brought out, where the code and its promise part:

- The token bucket keeps its bound only from a burst of one on; below that a key's first call is
  allowed all the same (`RateLimit.WindowBoundExactly`).
- The label comparison of an idempotent replay takes a missing label for an empty one, so the replay
  test is exact only for jobs without an empty label (`JobKeys.ReplayDecision`).
- A request repeated word for word can be answered with a conflict: when two of its label keys differ
  only in spaces around them, which value is stored is up to the order in which a map is walked
  (`JobKeys.RepeatedRequest`, with the input in `JobKeys.AmbiguousLabels`).
- The two reclaim loops fall back differently for a job without a heartbeat. No run of the memory
  store reaches one, and that invariant is what makes them agree
  (`Reclaim.JudgesDifferWithoutHeartbeat`, `Reclaim.JudgesAgree`).
- The `NO_PROXY=*` marker that the environment filter adds when the network is denied is removed by
  its own test (`EnvFilter.NoProxyWhenDenied`).
- A lockout with a maximum of one failure is in force after the first failure, but the call that
  records that failure does not report it; it reports locks exactly when more than one failure is
  allowed (`AuthLimit.FailReportsExactly`).
- A workspace pulled from an empty remote path is never pushed; what is pulled is pushed back exactly
  when the path is not empty (`MountLedger.PulledIsPushedExactly`, with a trail in
  `MountLedger.EmptyPathTrail`).
- The test that retires agent tokens on a change of path prefixes also fires when nothing is lost,
  exactly when the kept prefixes cover the dropped ones (`PrefixCover.PrefixTestExactly`).

`dafny verify dfyconfig.toml` checks the project.

## Model

| member | source | states |
|---|---|---|
| `JobHistory.Reachable` | internal/job/service.go:159-245 | Every store that any run of service events reaches is sound: jobs sit under their own id, no job is `dispatched`, running jobs have a heartbeat and a claim time, live jobs have no output, each outbox row announces the final record of a stored terminal job, one row per job, one job per user and key |
| `JobHistory.StepSound` | internal/job/service.go:688-735 | One event of any kind (create, claim, beat, sweep, release, complete, cancel, purge, deliver, requeue) keeps all of that |
| `JobHistory.EditedFine` | internal/job/service.go:1602-1647 | Every edit hits a live job, keeps the fields the job was created with, and becomes terminal only by a sweep, a completion or a cancel |
| `JobRuns.TerminalForGood` | internal/job/service.go:1602-1647 | A terminal job keeps its whole record to the end of the run, or is purged and never comes back |
| `JobRuns.GoneForGood` | internal/store/memory.go:841-887 | An id that was used and names no job names none at any later point of the run |
| `JobRuns.JobMove` | internal/job/service.go:586-604 | What one event can do to one job: nothing, one of the status changes of its life cycle with its attempt count, or purge it |
| `JobRuns.ExactlyOneNotification` | internal/job/service.go:855-896 | With the webhook configured, in every run each stored job has had exactly one outbox row enqueued if it is terminal and none otherwise; an unused id none |
| `JobRuns.NeverTwice` | internal/job/service.go:855-896 | No id ever has two rows enqueued, purges included, and a purged job had exactly the one that was due |
| `JobRuns.RowsNameStoredJobs` | internal/store/memory.go:841-887 | Every outbox row names a stored terminal job and carries its final record, purges included |
| `JobRuns.AttemptBudget` | internal/job/service.go:611-669 | For maxAttempts M > 0 the attempt count is at most M plus the releases so far, and without releases the job changes status at most 2M times |
| `JobRuns.Budget` | internal/job/service.go:1482-1516 | The decreasing measure behind it, and that the attempt count of a job is the number of claims on it |
| `JobRuns.ClaimsAlternate` | internal/store/memory.go:910-929 | Between two claims of one job the run returns it to pending |
| `JobKeys.ReplayDecision` | internal/job/service.go:247-275 | In every run a user and key name one stored job, and the replay test on it accepts exactly the requests for the work of the request that created it, for all requests with legal labels, if and only if none of its labels is empty |
| `JobKeys.RepeatedRequest` | internal/job/service.go:159-245 | The request that created a stored job, sent again, is accepted as a replay whichever way its labels get encoded, if and only if no two of its keys trim alike to different values |
| `JobKeys.EncodesOnce` | internal/job/service.go:1856-1876 | Labels whose trimmed keys do not clash have one encoding |
| `JobKeys.ClashingKeys` | internal/job/service.go:1868-1874 | Two keys that trim alike with different values: either may be stored, and the comparison tells the two outcomes apart |
| `JobKeys.LabelComparison` | internal/job/service.go:277-287 | The comparison is equality with every other legal label map if and only if no compared label is empty |
| `JobKeys.MapsEqualOnFullLabels` | internal/job/service.go:277-287 | On labels without empty values the comparison is map equality |
| `OutboxRuns.RowLifecycle` | internal/job/service.go:1055-1087 | A waiting row has fewer attempts than the maximum; attempts count the deliveries since the last requeue; a row whose deliveries all fail is dead after exactly the maximum |
| `OutboxRuns.BackoffRespected` | internal/job/service.go:835-850 | A delivery after k failed ones since the row was started comes no earlier than the sum of the first k backoffs |
| `OutboxRuns.SettledRowsRest` | internal/job/service.go:1213-1227 | Delivered and dead rows stay as they are until they are requeued or purged |
| `Reclaim.PerUserEqualsGlobal` | internal/job/service.go:1290-1348 | On every reachable store, sweeping the users one after the other in any order at one instant ends in the very store of the global sweep if and only if every stale job belongs to a listed user, and the returned counts add up to the global one if and only if the same holds |
| `Reclaim.ReachIsGlobal` | internal/job/service.go:1290-1348 | A per-user sweep of any set of jobs is the global sweep, in store and in count, if and only if it reaches every stale job |
| `Reclaim.JudgesAgree` | internal/job/service.go:611-669 | On a sound store both loops judge each job alike |
| `Reclaim.JudgesDifferWithoutHeartbeat` | internal/job/service.go:1322-1330 | On a job without a heartbeat, which no run of the memory store reaches, they differ exactly when one of claim time and update time is before the lease and the other is not |
| `JobLaws.GlobalSweepLeavesNoneStale` | internal/job/service.go:1290-1348 | After the global sweep of any reachable store, a job that still runs was claimed no longer ago than its timeout, its own or else the default, and with the lease on its heartbeat is no older than the lease |
| `JobLaws.SweepLaw` | internal/job/service.go:611-669 | On every sound store a sweep of a running job ends it Failed with exit code 124 if more than its timeout has passed since the claim, else leaves its record as it was if the lease is off or the heartbeat within it, else ends it Failed with exit code 1 if its attempts are used up, else makes it pending and unowned |
| `JobLaws.SweptInNumbers` | internal/job/service.go:1305-1345 | The whole record such a sweep leaves, note included |
| `JobLaws.BeatingJobsAreKept` | internal/job/service.go:586-604 | Over every run: a running job that beat at t and is within its timeout is left as it is by every sweep up to t + lease |
| `JobLaws.SilentJobsAreTaken` | internal/job/service.go:636-660 | Over every run: a job with no beat or claim since t runs no more after a sweep of it past t + lease |
| `JobLaws.SignedSince` | internal/job/service.go:586-604 | Over every run the heartbeat of a running job is no older than any of its beats or claims, times not running backwards |
| `JobLaws.HeartbeatStep` | internal/job/service.go:536-604 | One event sets the heartbeat of a running job, to its instant, if it is a beat or claim of the job, and leaves the whole record alone otherwise |
| `JobLaws.EndedOnce` | internal/job/service.go:1602-1647 | Over every run: a stored Succeeded job was completed with ok, a Cancelled one cancelled, a Failed one completed without ok or failed by a sweep |
| `JobLaws.RowsSayHowItEnded` | internal/job/service.go:855-896 | Over every run each row carries its job's final record and user, and the event job.succeeded, job.failed or job.cancelled as the job ended |
| `JobLaws.CompleteLaw` | internal/job/service.go:1602-1647 | A completion stores Succeeded exactly for ok, the reported exit code and duration or else the stored ones, keeps the claimer and the attempts, and clears heartbeat and claim time |
| `JobLaws.OutputLaw` | internal/job/service.go:1626-1636 | A completion stores the last outputMax bytes of each reported stream, flagged exactly when either side cut it; where nothing is reported the stored output stays |
| `JobLaws.CancelLaw` | internal/job/service.go:1787-1807 | A cancel changes the status, the times and, with an admin's note, the note, and nothing else |
| `JobLaws.ClaimLaw` | internal/store/memory.go:910-929 | A claim stores who claimed for which runner, starts heartbeat and claim time, counts one attempt, and changes nothing else in the store |
| `JobLaws.BeatLaw` | internal/job/service.go:586-604 | A beat renews heartbeat and update time and changes nothing else in the store |
| `JobLaws.ReleaseLaw` | internal/job/service.go:1482-1516 | A release clears claimer, heartbeat and claim time, adds its reason to the note, and changes nothing else in the store |
| `JobLaws.CreateLaw` | internal/job/service.go:200-245 | Every field of a new job, with priority, timeout and attempts brought into range |
| `JobLaws.AnnounceLaw` | internal/job/service.go:855-896 | The row a terminal write enqueues, field by field |
| `JobLaws.DeliveryLaw` | internal/job/service.go:1055-1087 | What one delivery leaves of its row, delivered, dead or to be tried again after the backoff |
| `JobLaws.RequeueLaw` | internal/job/service.go:1213-1227 | A requeued row is waiting, due since a second ago, with no attempts, and nothing else changes |
| `Reclaim.SweepTwice` | internal/job/service.go:611-669 | Two sweeps over two sets of jobs at one instant are one sweep over their union |
| `Reclaim.SweepDeterministic` | internal/job/service.go:1290-1348 | Two sweeps with the same verdicts and the same fresh ids end in the same store |
| `Cursor.CursorRoundTrip` | internal/job/service.go:357-389 | Every cursor decodes to the time and id it was made from, through base64url (section 5 of RFC 4648) and trimming |
| `Cursor.QuantaRoundTrip` | internal/job/service.go:357-362 | base64url decoding inverts encoding on every byte string |
| `Cursor.VectorLaw` | internal/job/service.go:357-362 | The test vectors of section 10 of RFC 4648, unpadded, and one whole cursor |
| `Paging.EachJobOnce` | internal/job/service.go:472-512 | Following next_cursor while the table changes, every job that is present and matching throughout is returned exactly once |
| `Paging.PagesAreTheListing` | internal/job/service.go:472-512 | On an unchanged table the pages together are all matching jobs, strictly descending by (created_at, id), with no repeat and no gap |
| `Paging.PagesDescend` | internal/store/memory.go:726-788 | Keys strictly descend through a page and across all later pages |
| `Paging.TokensFollow` | internal/job/service.go:364-389 | The page each token asks for is the one after the last job of the page before |
| `JobService.Service.List` | internal/job/service.go:472-512 | The limit+1 peek returns a page of the listing and a non-empty cursor exactly when more jobs match |
| `Sorting.ExchangeSort` | internal/store/memory.go:772-780 | The nested exchange loops sort the array in place into a permutation of itself |
| `Sorting.TakeFirst` | internal/store/memory.go:781-784 | Sorting and cutting keeps nothing behind that comes before something kept, and cuts only at the limit |
| `MemoryStore.Memory.ListJobsPage` | internal/store/memory.go:726-788 | The first matching jobs below the cursor, descending; a matching one is left out only at the limit and behind all those returned |
| `MemoryStore.Memory.ClaimPendingJob` | internal/store/memory.go:910-929 | Claims exactly when the user's job is claimable, and changes nothing else |
| `MemoryStore.Memory.ListPendingJobs` | internal/store/memory.go:803-813 | Exactly the user's claimable jobs, each once, in no particular order |
| `MemoryStore.Memory.ListRunningJobs` | internal/store/memory.go:815-839 | Exactly the running jobs of one user, or of all for a blank user, each once, oldest first |
| `MemoryStore.Memory.UpdateJob` | internal/store/memory.go:931-940 | Overwrites the record of a stored job of the same owner and nothing else |
| `MemoryStore.Memory.ListDueWebhookOutbox` | internal/store/memory.go:1376-1407 | Waiting rows that are due, the earliest first, left out only at the limit |
| `MemoryStore.Memory.PurgeTerminalJobs` | internal/store/memory.go:841-887 | Deletes the oldest due terminal jobs up to the cap, leaving a due one only at the cap, with exactly the rows that name them |
| `MemoryStore.OldestJobsLaw` | internal/store/memory.go:841-887 | Purged jobs are terminal and updated before the cut-off; one that is left is no older than those purged, and only the cap left it |
| `MemoryStore.OldestRowsLaw` | internal/store/memory.go:1501-1545 | Purged rows are delivered or dead and at rest since before the cut-off; one that is left rested no longer than those purged, and only the cap left it |
| `MemoryStore.Memory.PurgeWebhookOutbox` | internal/store/memory.go:1501-1545 | Deletes the longest-settled rows up to the cap, leaving a due one only at the cap |
| `JobService.Service.Create` | internal/job/service.go:159-245 | Creates one job, or answers a replay with the stored job, or reports the conflict, or refuses a bad request; all but the first leave the run as it was. A request sent again with unambiguous labels is answered with the job it made |
| `JobService.Service.Heartbeat` | internal/job/service.go:586-604 | Only a running job beats: its heartbeat becomes now and no other field but the update time changes; any other is refused and nothing changes |
| `JobService.Service.Complete` | internal/job/service.go:1602-1647 | A live job becomes succeeded or failed as reported, with the reported exit code and duration, and is announced; a terminal one is returned untouched |
| `JobService.Service.Cancel` | internal/job/service.go:1787-1807 | A live job is cancelled and announced; a cancelled one stays as it is, a finished one is refused untouched |
| `JobService.Service.ReleaseToPending` | internal/job/service.go:1482-1516 | A running job returns to pending without its claimer; any other call is refused and changes nothing |
| `JobService.Service.ReclaimStale` | internal/job/service.go:611-669 | The loop over the user's running jobs times out, keeps, gives up or releases each by its claim time, timeout, heartbeat and lease in numbers, makes one sweep of that user's jobs, counts those it changed, and continues the run by that many sweep events |
| `JobService.Service.ReclaimStaleAll` | internal/job/service.go:1290-1348 | The loop over all running jobs judges each by the same numbers, makes one sweep of the whole store, counts those it changed, and continues the run by that many sweep events |
| `JobService.Service.ReclaimEach` | internal/job/service.go:611-669 | Called for one user after the other with one supply of ids, the per-user reclaim ends in the store and the count of the global sweep if and only if the users own every stale job |
| `JobService.Service.ClaimNextFiltered` | internal/job/service.go:1524-1576 | The run goes on by the sweep events of its reclaim, then by two claim or release events for each bounced job and one for the job handed out; the scan has the outcome that the claim specification describes |
| `JobService.Service.Scan` | internal/job/service.go:1541-1576 | Over the candidates, best first, that outcome, with two events for each bounced job and one for the winner |
| `JobService.Service.ProcessWebhookOutbox` | internal/job/service.go:984-1053 | One round attempts the earliest due rows, leaving one out only at the limit; serial or bounded-parallel, it leaves the same outbox and count and continues the run by one delivery for each row |
| `JobService.Service.DeliverInParallel` | internal/job/service.go:1012-1053 | Whatever the completion order, the outbox and the delivered count are those of the batch as a set, and the run goes on by one delivery for each row |
| `JobService.Service.DeliverSerially` | internal/job/service.go:997-1010 | The serial loop has that same result and as many events |
| `JobService.Service.FinishAttempt` | internal/job/service.go:1055-1087 | Books one delivery outcome on its row |
| `JobService.Service.AdminRetryWebhook` | internal/job/service.go:1213-1247 | Requeues an existing row with its attempts cleared |
| `JobService.Service.PurgeTerminalJobs` | internal/job/service.go:1409-1425 | A purge is one step of the run, of the oldest due terminal jobs |
| `Delivery.FinishNext` | internal/job/service.go:1055-1087 | Booking one more outcome of a batch extends the finished set by that row, in any order |
| `Claiming.SteadyPolicy` | internal/job/service.go:1524-1576 | With a steady policy the claim returns an allowed claimable job in the region that no other such job exceeds in priority, nor in age at the same priority, fails exactly when there is none, and touches no other job |
| `Claiming.ChangeOfMind` | internal/job/service.go:1482-1516 | A policy that changes its mind after the claim leaves the job pending, unowned, one attempt spent |
| `ClaimRace.AttemptsAreHandouts` | internal/job/service.go:536-571 | For any number of workers interleaved at store calls, a job's attempt count is the number of times it was handed out |
| `ClaimRace.NoDoubleHandout` | internal/store/memory.go:910-929 | Between two hand-outs of one job a write returned it to pending |
| `OutputTail.LimitedBuffer.Write` | cmd/runner/main.go:1003-1020 | The buffer is the tail of everything written, and flagged exactly when something was cut |
| `OutputTail.Capture` | cmd/runner/main.go:900-912 | Any sequence of writes leaves the tail of the joined stream |
| `OutputTail.StoredTail` | internal/job/service.go:1626-1636 | In every run, a completed job stores the last min(a, b) bytes of each whole stream, and its flags say exactly whether the stream was longer |
| `RateLimit.Limiter.Allow` | internal/policy/ratelimit.go:37-57 | A known key is allowed exactly when its tokens plus rate times the time since, cut to the burst, reach one; an unknown key always; and the bucket that is left |
| `RateLimit.WaitingHelps` | internal/policy/ratelimit.go:37-57 | After a refusal, in any sequence of calls, the next call of the key is allowed once 1 / rate has passed, for a burst of at least one |
| `RateLimit.WindowBoundExactly` | internal/policy/ratelimit.go:37-57 | In every interval and for every key at most burst + rate * length calls are allowed, over all call sequences with non-decreasing times, if and only if the burst is at least one |
| `RateLimit.DeletingRefusals` | internal/policy/ratelimit.go:46-57 | Deleting all refused calls leaves the answer to any further call unchanged |
| `RateLimit.KeptAreAllowed` | internal/policy/ratelimit.go:46-57 | Without the refused calls, every remaining call is still allowed |
| `AuthLimit.FailureTracker.Locked` | internal/policy/authlimit.go:67-83 | Locked exactly while an unexpired entry has the maximum count; an expired entry is dropped |
| `AuthLimit.FailureTracker.RecordFailure` | internal/policy/authlimit.go:85-100 | Starts or continues the entry; the failure that opens an entry never reports a lock, even with a maximum of one |
| `AuthLimit.FailReportsExactly` | internal/policy/authlimit.go:85-100 | Over all tables a run can hold, all keys and instants, recording a failure reports whether the key is now locked out if and only if the maximum is more than one |
| `AuthLimit.FirstFailureUnreported` | internal/policy/authlimit.go:93-96 | With a maximum of one the first failure of a key locks it out and reports no |
| `AuthLimit.FailureBound` | internal/httpserver/server.go:796-819 | When every failure follows a check that passed, at most 2 * maxFail - 1 failures of a key fall in any closed interval as long as the window without a clear |
| `AuthLimit.FailureBoundReached` | internal/policy/authlimit.go:67-100 | For every setting some run reaches that bound |
| `AccessPolicy.AllowsLaw` | internal/policy/engine.go:229-250 | Which scope, drive and path each action asks for |
| `AccessPolicy.UntightenedCovers` | internal/agent/service.go:347-425 | A change that the tests do not call a tightening loses no scope, drive or path |
| `AccessPolicy.DrivesTightenedExactly` | internal/policy/engine.go:297-312 | For non-blank ids the drive test fires if and only if some drive is lost |
| `AccessPolicy.PrefixOkMonotone` | internal/policy/engine.go:379-398 | More prefixes allow no fewer paths |
| `PrefixCover.PathsKeptExactly` | internal/policy/engine.go:379-398 | A change of prefixes keeps every path in reach if and only if each old prefix is covered, at its start and at its end, by new ones; for all lists that leave some character unused |
| `PrefixCover.AllCoveredKeeps` | internal/policy/engine.go:379-398 | Covered prefixes lose no path, for all lists |
| `PrefixCover.PrefixTestExactly` | internal/agent/service.go:400-425 | The prefix test is right about a change except exactly when it fires although all prefixes are covered |
| `AccessPolicy.CoversAllows` | internal/policy/engine.go:229-250 | Wider grants, with the same token scopes or wider ones, allow every request that was allowed |
| `AgentEpoch.Normal` | internal/agent/service.go:302-329 | The non-blank cleaned entries, without repeats, and nothing else |
| `AgentEpoch.AgentService.CreateAgent` | internal/agent/service.go:94-132 | Stores the normalised record, or refuses a bad name, scope or drive and stores nothing |
| `AgentEpoch.AgentService.UpdateAgent` | internal/agent/service.go:159-228 | Stores the patched record with its version moved on exactly when it is disabled or tightened; a refused update changes nothing |
| `AgentEpoch.AgentService.IssueToken` | internal/httpserver/server.go:2336-2364 | Only for the caller's active agent, at the current versions, by default with its own scopes |
| `AgentEpoch.SlashLaw` | internal/agent/service.go:302-329 | A prefix loses the slashes around it, all of them and no more |
| `AgentEpoch.OneStep` | internal/agent/service.go:208-226 | Each event removes a known agent for good, moves its version on, or keeps it active and all it granted |
| `AgentEpoch.AcceptedTokenEpoch` | internal/auth/auth.go:252-274 | While a token is accepted, from its minting on the agent existed, was active, kept its version and lost no scope, drive or path, and no session of its user was revoked |
| `AgentEpoch.RevocationIsFinal` | internal/auth/auth.go:252-274 | Over every run: a token minted before its agent is revoked, disabled or deleted by its owner, or before all sessions of its user are revoked, never passes the version checks after that, whatever else happens |
| `AgentEpoch.NothingLost` | internal/auth/auth.go:262-274 | Every request that the scopes of an accepted token allowed when it was minted was allowed at each moment since, and so with the agent's own scopes, which a token minted without asking for others still finds on the record |
| `AgentEpoch.DrivesUpdateRetiresExactly` | internal/agent/service.go:215-223 | An update of only the drives moves the version on if and only if a drive went out of reach |
| `RefreshTokens.RefreshStore.GetRefreshTokenByHash` | internal/store/memory.go:246-261 | A usable token with that hash, or none only if there is no such hash or an unusable token has it |
| `RefreshTokens.RefreshStore.RevokeRefreshToken` | internal/store/memory.go:263-275 | Revokes once: a second attempt fails and changes nothing |
| `RefreshTokens.RefreshStore.RevokeRefreshTokensForUser` | internal/store/memory.go:277-286 | Revokes exactly the user's tokens |
| `RefreshTokens.Auth.Refresh` | internal/auth/refresh.go:80-103 | An undisturbed call makes exactly the steps that callers interleave, ends with the old token revoked and one new one stored, and fails with a usable secret only if the user or the signing fails |
| `RefreshTokens.Auth.IssueTokens` | internal/auth/refresh.go:44-76 | Stores one fresh token for the user of the spent one, or nothing |
| `RefreshTokens.SingleUse` | internal/auth/refresh.go:80-103 | However any number of callers interleave, a refresh token yields at most one new pair |
| `RefreshTokens.Lineage` | internal/store/memory.go:246-275 | Every rotation lineage is a chain of one user's tokens, and all but its last are revoked |
| `EnvFilter.SecretsBlocked` | internal/sandbox/env.go:36-45 | With the default lists the master key, the cloud credentials and the signing secret never pass, and the token only if asked for |
| `EnvFilter.Environment.Add` | internal/sandbox/env.go:122-150 | One entry is refused, overwrites the entry of its key in place, or goes to the end |
| `EnvFilter.FilterEnv` | internal/sandbox/env.go:85-164 | The result lists, in order of first occurrence, each accepted key's last entry in base, then extra in some order, then the markers |
| `EnvFilter.FilteredIsLastWriteMap` | internal/sandbox/env.go:122-150 | No two entries share a key, a key is present exactly when some given entry passes the tests, and it has the last of those |
| `EnvFilter.NoProxyWhenDenied` | internal/sandbox/env.go:132-134 | With the network denied no key contains PROXY, not even the program's own NO_PROXY marker |
| `EnvFilter.FilterIdempotent` | internal/sandbox/env.go:85-164 | Filtering the result again changes nothing |
| `EnvFilter.OrderMattersExactly` | internal/sandbox/env.go:155-157 | The values do not depend on the order in which the extra map is walked if and only if no two different accepted extra entries compete for a key |
| `MountLedger.HandleConservation` | cmd/hubd/main.go:116-146 | In a disciplined trail every mount acquired is held now or was released exactly once |
| `MountLedger.PushBeforeNextPull` | cmd/hubd/main.go:574-581 | Between a pull and the next attempt to pull for a binding the work was pushed back to where it came from |
| `MountLedger.PullBeforeNextPush` | cmd/hubd/main.go:700-711 | Between two pushes of a binding there is a pull |
| `MountLedger.PullsMinusPushes` | cmd/hubd/main.go:566-581 | Pulls exceed pushes by one while work is owed and by none otherwise |
| `MountLedger.PulledIsPushedExactly` | cmd/hubd/main.go:574-581 | Between a pull and any later attempt to pull for the binding, what was pulled is pushed back if and only if its remote path is not empty |
| `MountLedger.EmptyPathNeverPushed` | cmd/hubd/main.go:574-581 | No push ever goes to an empty remote path |
| `MountLedger.ClosedBooks` | cmd/hubd/main.go:253-261 | With the books closed every mount was released once, and what was pulled was pushed back if and only if its remote path is not empty |
| `MountLedger.TruthfulReports` | cmd/hubd/main.go:148-169 | A binding is reported mounted only while a mount of it is held, and unmounted, or its drive put behind a barrier, only when none is held and no work is owed |
| `Hubd.Controller.StopMount` | cmd/hubd/main.go:566-606 | Pushes a synced workspace, then lets the mount go |
| `Hubd.Controller.StartMount` | cmd/hubd/main.go:637-755 | Hands back a mount in the requested mode if and only if every step goes through, WinFsp is there where it is needed, and the path becomes reachable before the process exits and time is up; else nothing of it is left behind |
| `Hubd.Controller.Remount` | cmd/hubd/main.go:116-146 | Replaces the mount of one binding if and only if a session opens and the start goes through, else reports it broken, and touches no other |
| `Hubd.Controller.Tend` | cmd/hubd/main.go:170-237 | The turn of one wanted binding, whatever the outside shows: a mount of the wrong mode, dead, unreachable or out of session is stopped and mounted again, a failure reported first; one that is well stays as it is, without an effect |
| `HubdPass.FailedMountsGo` | cmd/hubd/main.go:184-201 | A mount whose process has exited, or whose path hangs, is reported broken, then stopped, and is not the entry after its turn |
| `HubdPass.ExpiringSessionsAreRenewed` | cmd/hubd/main.go:202-236 | The session of a mount that is well but ends within five minutes is renewed in place exactly when that is allowed, goes through and leaves the mount well; otherwise the mount is stopped |
| `HubdPass.ModeChangesRemount` | cmd/hubd/main.go:177-183 | A mount in another mode than the binding asks for is stopped, and any new one runs in that mode |
| `HubdPass.HealthyMountsStay` | cmd/hubd/main.go:170-237 | A mount that is well, as asked for and not about to expire is left alone |
| `HubdPass.MissingMountsOpen` | cmd/hubd/main.go:116-146 | A binding without a mount has one after its turn if and only if a session opens and each step of the start goes through; it was then reported mounted, and broken after three lost reports; without one it was reported broken |
| `Hubd.Controller.Reconcile` | cmd/hubd/main.go:148-239 | The wanted bindings are those whose last entry that asks for a mount says so; after a pass every other mount was stopped, its barrier posted and it was reported unmounted, and each wanted binding had its turn, dead, unreachable and expiring mounts included; without a list nothing happens |
| `Hubd.Controller.Shutdown` | cmd/hubd/main.go:253-261 | Stops every mount once, posts its barrier, reports it unmounted, and leaves no work unpushed |
| `Hubd.Run` | cmd/hubd/main.go:241-265 | Every life of hubd, with any failures, keeps the discipline throughout and closes its books |

## Left out

- SQLite and Postgres stores: SQL run by engines that are not shown; only the memory store is modelled.
- HTTP routing, MCP, CLI, metrics, configuration, wizard and object-store clients: plumbing.
- Storage failures: the memory store's writes do not fail, so enqueues always succeed.
- Races inside one service call that reads, edits and blindly overwrites a job: one call is one atomic step; only claims are modelled at the granularity of store calls.
- JobService.Service.ClaimNextFiltered: always has a policy; a claim without one is modelled as the interleaved workers of `ClaimRace` only.
- Admin listing, counts, batch cancel and batch retry: the same code paths as the single operations.
- Job identifiers: UUIDs are parameters assumed fresh, non-blank and free of surrounding spaces.
- Cursor timestamps: decimal numerals stand for the injective RFC 3339 form (section 5.6 of RFC 3339).
- Commands, labels and payloads: JSON encoding is taken to be injective, and the records themselves are stored.
- Text outside ASCII: trimming, upper case and output bytes are modelled for ASCII.
- HTTP delivery of webhooks: the outcome and instant of each delivery are parameters; deliveries of one round work on the rows read at its start.
- Floating point: bucket tokens are real numbers.
- Rate limiter clock: calls of one sequence have non-decreasing times.
- Clearing a failure entry inside the window: a successful login starts the count anew, so the bound is stated between clears.
- Token signatures, expiry and the logout deny list: they can only refuse more than the version checks modelled here.
- A token issued or an agent updated from a record read before another update: each call is one atomic step.
- Token scopes wider than the agent's own: the endpoint lets a caller ask for any known scopes, so a token's scopes are compared with the record only when none were asked for.
- PrefixCover.PathsKeptExactly: needs a character that the kept prefixes leave unused; a list that uses every character can take over paths by several prefixes at once.
- File rules, OPA and the remote PDP: they can only refuse more than the built-in checks.
- Secrets: a refresh secret stands for its own digest, so hashing is injective.
- A refresh already in flight while all sessions are revoked: it may still issue a pair, and nothing is claimed about it.
- OutputTail.LimitedBuffer.Write: the buffer is a value, so sharing of the underlying bytes is not modelled.
- Hubd.Controller.StartMount: files, processes and probes are reduced to success or failure, and the wait loop to the polls that fit before its deadline.
- Hubd.Controller.Tend: mounts are values in the map of bindings, so two names for one mount record are not modelled, and what the outside shows about a binding during its turn is fixed before it.
- The answers of the control plane to reports of a failure: hubd ignores them.
- Failed pushes: hubd ignores the outcome of a push, so a push here is an attempt.
- Catalogs, connectors, lineage, marketplace, manifests, devices and quotas: they would add only easy members.
