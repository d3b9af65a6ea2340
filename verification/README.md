# IFNOTUS platform: models and proofs

This project models the parts of the IFNOTUS hosting platform whose guarantees hold over whole runs, and
proves them in Dafny. `dafny verify dfyconfig.toml` checks everything.

Each protocol is written twice. A state machine on values says what one step does (`...Protocol`,
`FirewallCache`, the functions of the smaller modules); a class with the fields of the source's own object
says how the code does it, and each of its methods is proved to be one step of the machine. The theorems are
then about every run of the machine: any number of workers, any interleaving, and any pattern of the store
failures that the machine knows. For the queue a command may be carried out and answered, not carried out, or
carried out with its answer lost; a challenge call may lose Redis at any of its commands, carried out or not,
and the file may be unreadable, refuse a write or be torn by one; the limit file may refuse or be torn.

| files | what they model |
|---|---|
| `TaskQueues`, `WorkerProtocol`, `WorkerRunner`, `WorkerTheorems`, `WorkerEndings` (and `Totals`, sums over sequences) | N worker loops over a FIFO list, retries that sleep, a semaphore, shutdown, restart, and how jobs end |
| `ChallengeProtocol`, `ChallengeStore`, `ChallengeTheorems`, `ChallengeReference` | login challenges in four linked Redis structures with their own expiry times, and the fallback file; a plain table that answers the same |
| `LimitStore`, `LimitTheorems`, `RateLimiter`, `RateTheorems` | counters and cooldowns in a pruned file; the rate limiter over Redis and that file |
| `FirewallCache`, `FirewallTheorems` | the 15-second per-process cache of firewall rules and of blocked actions, with the query as an await point |
| `Blacklist`, `BlacklistTheorems` | login failures, the failure streak, blocks that expire when a request meets them |
| `SshSync` | the SSH journal topped up into the attempts table, and the cutoff that keeps cleared rows out |
| `Allowlist`, `Texts` | the comma-separated list of admin addresses: parsing, and rewriting the environment file |
| `SseReader`, `SseMessages` | the incremental Server-Sent Event reader, and what it reads of what is sent |
| `BlockCutting`, `ReplaceFunction`, `ReplaceStable` | replacing shell functions in a script, and which stubs can be put in twice |
| `PasswordReset` | one-time reset tokens |
| `Permissions`, `Privileges` | the role table, and a superadmin acting in a lesser role |
| `PlanResources` | plan resources from a price, in exact arithmetic |
| `Totp` | one-time passwords (RFC 4226, RFC 6238) |
| `PortDedup` | the migration that makes allocated ports unique |
| `Options`, `Sets` | an optional value; sizes of sets |

Redis keys, table rows and files are maps, sets and sequences; clocks, random ids, tokens and the success of
every store call are inputs. Hashing, HMAC-SHA-1, base 32, JSON parsing and "a CIDR contains an address" are
function parameters.

## Where the code does less than it promises

Each of these is proved: what goes wrong on which input, and the condition under which it does not.

- A job whose handler succeeded can be handled again: if the status write after a success is not answered, that
  is reported like a failure of the handler (`UnwrittenSuccessRunsAgain`); if the writes of that job are answered,
  its success is final (`SuccessIsFinal`) and it ends as completed (`CompletedExactly`), whatever happens to other
  jobs. In every run a job is completed exactly if a success of it was written down and answered
  (`CompletedInRun`).
- A job can vanish: when a pop of it is carried out and not answered, when its status write after a failure is not
  answered, and when the push of its retry is not carried out. These are the only ways, in every run (`LostExactly`,
  `LostInRun`).
- The five-code limit holds in Redis only. A challenge in the fallback file can be tried for ever
  (`FileHasNoLimit`), and one that its create put into both stores, because the reply to the Redis write got lost,
  survives the lock-out there (`DoubledHasNoLimit`) and can be used twice (`DoubledIsGivenTwice`). Any other
  challenge that Redis ever held meets at most five codes in all (`AtMostFiveCodes`), and any other challenge is
  handed out at most once (`GivenAtMostOnce`), whatever becomes of the creates of others.
- A limit file torn in the middle of a write reads as empty, so each such write in a window lets another `limit`
  requests of that window through, and a cooldown be set again (`BoundIsReached`, `TornWriteForgetsCooldown`);
  without it the bounds are 2 * limit and exact (`AtMostTwiceTheLimit`, `CooldownsAreApart`).
- Clearing the caches does not reach a request that has its query result already: it stores the old rules
  afterwards (`LingeringComesBack`); with none in flight the invalidation holds (`InvalidationHolds`).
- A manual block, with or without an end, is cut down to 15 minutes when its address keeps failing to log in;
  it holds to its end exactly if that does not happen, or happens in the last 15 minutes (`ManualBlockHolds`).
- A clear whose cutoff got written stays clear until the next one (`ClearedStaysCleared`); a clear whose cutoff was
  lost does so exactly if no journal that is read has a line between the old cutoff and the clear
  (`LostWatermark`). A stored login behind 300 newer rows is stored again (`HiddenRowIsDoubled`, reached from an
  empty log in `DoubledFromEmpty`); a login has at most one row exactly if no sync meets it while the query hides
  its row (`OneRowPerLogin`).
- The first address that is new to a process can push out those that only the process knew, exactly those that
  the file's last list lacks (`OnlyTheFirstForgets`); later ones never do (`NobodyForgottenLater`).
- Confirming a reset does not look at whether the account was deleted; requesting one does
  (`DeletedAccountCanConfirm`). Nothing in the repository marks an account as deleted: such a row comes from
  outside it.
- A role stored as "SuperAdmin" grants nothing but allows every switch, so the overlay grants more than the
  stored roles (`MixedCaseSwitches`); `ExceedsExactly` says for which accounts this can happen. The services
  store roles in lower case: such a name comes from outside them.
- A stub that holds a second function is not stable under replacement: stable on every text exactly if it holds
  one (`StableExactly`).
- In the first half minute of the epoch verifying a one-time code raises (`StartOfTheEpoch`, `VerifyMadeCode`).
- Whole megabytes below 64 do not come back from gigabytes (`MegabytesComeBack`).

## Model

| member | source | states |
|---|---|---|
| `TaskQueues.TaskQueue.Enqueue` | backend/app/workers/queue.py:23-43 | one message under a new id goes to the tail if the push is carried out; an error unless it is answered too |
| `TaskQueues.TaskQueue.Dequeue` | backend/app/workers/queue.py:45-62 | the head comes off and is handed over; on a store error nothing is handed over, and a head whose pop was carried out is gone |
| `TaskQueues.TaskQueue.Mark` | backend/app/workers/queue.py:69-79 | only the status of that task changes, if the write is carried out; an error unless it is answered too |
| `WorkerRunners.WorkerRunner.constructor` | backend/app/workers/runner.py:25-34 | a process starts with a permit per loop on whatever the list holds |
| `WorkerRunners.WorkerRunner.LoopTop` | backend/app/workers/runner.py:64-66 | one protocol step: take a permit while running, stop otherwise |
| `WorkerRunners.WorkerRunner.DequeueReturns` | backend/app/workers/runner.py:67-78 | one protocol step: give the permit back, start the handler, note an unknown name, or lose the message with its unanswered pop |
| `WorkerRunners.WorkerRunner.HandlerReturns` | backend/app/workers/runner.py:80-98 | one protocol step: the verdict waits to be written |
| `WorkerRunners.WorkerRunner.StatusWriteReturns` | backend/app/workers/runner.py:82-111 | one protocol step: complete, retry with the next attempt number, give up, or back off when the write is not answered |
| `WorkerRunners.WorkerRunner.BackoffEnds` | backend/app/workers/runner.py:109-111 | one protocol step: the loop goes on after an error |
| `WorkerRunners.WorkerRunner.SleepEnds` | backend/app/workers/runner.py:115-134 | one protocol step: requeue if the push is carried out, answered or not; else the job is lost, and after shutdown dropped |
| `WorkerRunners.WorkerRunner.Shutdown` | backend/app/workers/runner.py:57-60 | one protocol step: only the flag changes |
| `WorkerRunners.WorkerRunner.LoopCloses` | backend/app/workers/runner.py:44-60 | one protocol step: what still sleeps when all loops have returned is dropped |
| `WorkerTheorems.InvStep` | backend/app/workers/runner.py:62-134 | every step keeps the invariant: permits balance, one copy per open job, every copy numbered, no job over its budget |
| `WorkerTheorems.InvRestart` | backend/app/workers/runner.py:29-34 | a new process on the old list starts in a good state with the same copies and the same work |
| `WorkerTheorems.OneLiveCopy` | backend/app/workers/runner.py:62-134 | in every run a job has exactly one live copy (queued, carried, asleep) until it is settled, then none, whatever the store loses |
| `WorkerTheorems.BoundedRuns` | backend/app/workers/runner.py:86-108 | in every run, for a job submitted without an attempt number, with 0 or with 1: its calls are numbered 1, 2, 3 and so on, at most max(1, max_attempts); submitted with a later number a they go on from a |
| `WorkerTheorems.NeverBlocked` | backend/app/workers/runner.py:27-66 | in every run a loop that is about to enter the semaphore finds a free permit |
| `WorkerTheorems.SettledForGood` | backend/app/workers/runner.py:62-134 | a job ends once: its outcome and its calls never change afterwards (what each outcome means: `EndingsMean`) |
| `WorkerTheorems.StatusTells` | backend/app/workers/queue.py:69-79 | the status of a task changes by a report on it that is carried out, and tells whether its handler succeeded |
| `WorkerTheorems.WhereTheLoopGoes` | backend/app/workers/runner.py:82-111 | after a report the loop goes on, reports one more failure, or backs off, and only then gives the permit back |
| `WorkerTheorems.WorkFalls` | backend/app/workers/runner.py:62-134 | every step that moves a copy strictly lowers a remaining-work measure; no other step but a submission raises it |
| `WorkerTheorems.MovesAreBounded` | backend/app/workers/runner.py:62-134 | without submissions a run has no more moves than the measure |
| `WorkerTheorems.QuietIffSettled` | backend/app/workers/runner.py:62-134 | in every run the measure is zero exactly when every job is settled |
| `WorkerTheorems.EveryWorkerCanMove` | backend/app/workers/runner.py:62-111 | while running with a message waiting, each worker is at most three steps of its own from moving a copy |
| `WorkerTheorems.SuccessIsFinal` | backend/app/workers/runner.py:81-83 | a job that succeeded is never handled again, unless a status write of that job is not answered |
| `WorkerTheorems.UnwrittenSuccessRunsAgain` | backend/app/workers/runner.py:81-108 | a success whose write is not answered sleeps for one more call if attempts are left; on the last attempt it counts as failed |
| `WorkerEndings.EndingsMean` | backend/app/workers/runner.py:73-134 | in every run: completed means succeeded; unknown means no such task and no call; dropped means a last call below max_attempts and a shutdown; a call means the name is registered |
| `WorkerEndings.AllAttemptsMade` | backend/app/workers/runner.py:99-108 | in every run a job submitted as usual that failed for good had exactly max(1, max_attempts) calls |
| `WorkerEndings.CompletedInRun` | backend/app/workers/runner.py:80-83 | in every run a job ends as completed exactly if the write of a success of its handler was answered |
| `WorkerEndings.CompletedExactly` | backend/app/workers/runner.py:80-134 | in every run in which the status writes of a job are answered: once ended it is completed exactly if its handler succeeded |
| `WorkerEndings.LostExactly` | backend/app/workers/runner.py:96-134 | an open job is lost to the store by exactly three events: an unanswered pop, an unanswered status write after a failure, a retry whose push is not carried out |
| `WorkerEndings.LostInRun` | backend/app/workers/runner.py:62-134 | in every run a job ends as lost exactly if one of these events happened to it |
| `WorkerEndings.NeverStuck` | backend/app/workers/runner.py:62-134 | in every run, while the loops run and some job is open, a move is at most three steps away, without a submission, shutdown or restart |
| `WorkerEndings.EveryJobCanEnd` | backend/app/workers/runner.py:62-134 | after every run with the loops running, such steps alone, at most three times the remaining work, can end every job; no move is in reach exactly when all have ended |
| `WorkerEndings.StepsAfterShutdown` | backend/app/workers/runner.py:57-64 | after a shutdown the loops take at most six more steps each, whatever else happens |
| `WorkerEndings.ShutdownEndsTheLoops` | backend/app/workers/runner.py:57-66 | from a shutdown until a new process starts the flag stays down, and the loops take at most six steps each |
| `WorkerEndings.LoopsStop` | backend/app/workers/runner.py:57-113 | and until all have stopped, each that has not can take its next step |
| `WorkerEndings.ExitDropsTheSleepers` | backend/app/workers/runner.py:44-60 | when the process closes exactly the jobs that slept are dropped |
| `ChallengeStores.ChallengeStore.SaveFile` | backend/app/services/auth_challenges.py:84-102 | the loop keeps exactly what is open or younger than a day; a write may be refused or tear the file, and raises |
| `ChallengeStores.ChallengeStore.CreateChallenge` | backend/app/services/auth_challenges.py:165-237 | one protocol step, with Redis lost at any command: drop the previous, set key, pointer, index, or use the file |
| `ChallengeStores.ChallengeStore.CloseAll` | backend/app/services/auth_challenges.py:219-227 | the loop marks exactly the open challenges of that user and address |
| `ChallengeStores.ChallengeStore.IncrAttempts` | backend/app/services/auth_challenges.py:300-302 | INCR keeps the key's expiry, and the first count sets it |
| `ChallengeStores.ChallengeStore.ConsumeChallenge` | backend/app/services/auth_challenges.py:288-329 | one protocol step, with Redis lost at any command: counting, lock-out after five, comparing, taking, file fallback |
| `ChallengeStores.ChallengeStore.ForgetChallenge` | backend/app/services/auth_challenges.py:311-312 | key, counter and pointer go in one command and the index entry in the next, as far as they are carried out |
| `ChallengeStores.ChallengeStore.TakeFromFile` | backend/app/services/auth_challenges.py:319-329 | the file half of a consume or approval: only an open challenge with the code given is taken, and only if the file is rewritten |
| `ChallengeStores.ChallengeStore.ApproveChallenge` | backend/app/services/auth_challenges.py:332-362 | one protocol step: take without a code |
| `ChallengeStores.ChallengeStore.ListPendingChallenges` | backend/app/services/auth_challenges.py:240-266 | one protocol step, sorted newest first |
| `ChallengeStores.ChallengeStore.ReadIndexed` | backend/app/services/auth_challenges.py:246-256 | the loop collects exactly the live ids and takes the dead ones out of the index |
| `ChallengeTheorems.InvStep` | backend/app/services/auth_challenges.py:165-362 | every call keeps the four structures linked, the Redis count bounded and the file single, whatever command loses Redis and however the file fares |
| `ChallengeTheorems.AtMostFiveCodes` | backend/app/services/auth_challenges.py:299-309 | in every run a challenge that Redis ever held and whose own create was not doubled is compared with at most 5 codes in its life, in Redis and file together |
| `ChallengeTheorems.AtMostFiveOnRedis` | backend/app/services/auth_challenges.py:299-309 | in every run, doubled or not, the Redis half compares at most 5: the counter never expires before the challenge |
| `ChallengeTheorems.FileHasNoLimit` | backend/app/services/auth_challenges.py:319-329 | any number of wrong codes is compared with an open challenge in the file, and the right one is still taken |
| `ChallengeTheorems.DoubledHasNoLimit` | backend/app/services/auth_challenges.py:198-229 | after any create that landed in both stores, six wrong tries only take the Redis copy away: any number more is compared, and the right code is still taken |
| `ChallengeTheorems.SixthTryDestroys` | backend/app/services/auth_challenges.py:303-307 | in every run, for a challenge whose own create was not doubled, a try after five comparisons is refused and the challenge is gone from both stores, right code or not |
| `ChallengeTheorems.OneLivePerUserAndIp` | backend/app/services/auth_challenges.py:192-228 | in every run a live challenge is the one its pointer names, so there is one per user and address; and one open in the file |
| `ChallengeTheorems.ListIsExact` | backend/app/services/auth_challenges.py:240-256 | in every run the list is exactly the live challenges whose expiry second is later than this second |
| `ChallengeTheorems.GivenAtMostOnce` | backend/app/services/auth_challenges.py:288-362 | consume and approve together hand a challenge out at most once, unless its own create landed in both stores |
| `ChallengeTheorems.DoubledIsGivenTwice` | backend/app/services/auth_challenges.py:198-229 | after any such create, approving twice succeeds twice |
| `ChallengeTheorems.PruningIsInvisible` | backend/app/services/auth_challenges.py:84-98 | over any calls in time order the pruned file answers as one that keeps everything |
| `ChallengeReference.RedisIsSimple` | backend/app/services/auth_challenges.py:165-362 | while Redis answers, every call of every run is answered as by a plain table of open challenges with a quarter of an hour and five tries each |
| `ChallengeReference.FileIsSimple` | backend/app/services/auth_challenges.py:218-362 | while there is no Redis and the file works, as by the same table without a limit of tries |
| `ChallengeReference.CodeDecides` | backend/app/services/auth_challenges.py:288-314 | after every run, for a challenge live on Redis: below five counted tries the right code gives that challenge and removes it and a wrong one leaves it live; then it is refused and removed; an approval gives it |
| `ChallengeReference.FreshCodeIsTaken` | backend/app/services/auth_challenges.py:165-314 | a challenge made on Redis is given for its code for 15 minutes, after any other calls with any faults and up to four wrong codes |
| `ChallengeReference.ConsumeCommands` | backend/app/services/auth_challenges.py:299-313 | which of its commands a consume has carried out when Redis is lost, field by field |
| `ChallengeReference.ConsumeCounter` | backend/app/services/auth_challenges.py:300-313 | and what has become of the counter of tries |
| `ChallengeReference.CounterGoesUp` | backend/app/services/auth_challenges.py:300-302 | the counter goes up by one and keeps its time, a new one gets 15 minutes |
| `ChallengeReference.ConsumeAnswers` | backend/app/services/auth_challenges.py:295-317 | the answer of Redis, or the file's turn when a command was not answered |
| `ChallengeReference.ComparesMeans` | backend/app/services/auth_challenges.py:299-329 | a code counts as compared exactly if it makes a difference which one is given, on Redis and in the file |
| `ChallengeReference.ApproveCommands` | backend/app/services/auth_challenges.py:336-349 | the same of an approval |
| `ChallengeReference.CreateCommands` | backend/app/services/auth_challenges.py:192-214 | the same of a create: drop the previous challenge, then set all three together |
| `ChallengeReference.IndexOutlives` | backend/app/services/auth_challenges.py:199-203 | the index lives a minute longer than the challenge put into it, under its expiry second |
| `ChallengeReference.SavedExactly` | backend/app/services/auth_challenges.py:84-98 | saving drops exactly what is closed or out of time and older than a day |
| `LimitStores.LimitStore.Save` | backend/app/utils/limit_store.py:45-60 | the loop keeps exactly the rows that have not run out; a refused or torn write is modelled |
| `LimitStores.LimitStore.Incr` | backend/app/utils/limit_store.py:63-83 | one step of the store: count in the window's row, refuse when the write fails |
| `LimitStores.LimitStore.SetCooldown` | backend/app/utils/limit_store.py:86-103 | one step of the store: set unless cooling |
| `LimitTheorems.CounterKeyInjective` | backend/app/utils/limit_store.py:68-69 | key and window can be read back from the storage key, so counters do not collide |
| `LimitTheorems.IncrIsExact` | backend/app/utils/limit_store.py:63-83 | in every run `incr` returns the number of calls counted for its key in its window and allows the first `limit` |
| `LimitTheorems.InCooldownIsExact` | backend/app/utils/limit_store.py:86-113 | in every run `in_cooldown` is true exactly until the last cooldown that was set runs out |
| `LimitTheorems.SetCooldownIsExact` | backend/app/utils/limit_store.py:86-103 | a cooldown is set exactly if the last one set has run out and the write is saved |
| `LimitTheorems.NoLimitNoCount` | backend/app/utils/limit_store.py:63-103 | limits, windows and cooldowns of zero or less let the call through and leave the file alone |
| `LimitTheorems.CooldownsAreApart` | backend/app/utils/limit_store.py:86-103 | two cooldowns set on a key are at least the first one's length apart, unless the file was torn in between |
| `LimitTheorems.TornWriteForgetsCooldown` | backend/app/utils/limit_store.py:32-42 | for every cooldown just set and every other call after it: the cooldown can be set again before it has run out exactly if that call tore the file |
| `RateLimiters.RateLimiter.Consume` | backend/app/utils/rate_limit.py:87-110 | count in Redis and answer by it, or fall back to the file, also when the count got through and its reply, or that of the EXPIRE, did not |
| `RateLimiters.RateLimiter.ConsumeViaFile` | backend/app/utils/rate_limit.py:112-136 | the file's answer, or the fail-closed rule when the file cannot be written |
| `RateTheorems.InvStep` | backend/app/utils/rate_limit.py:87-136 | every request and every other use of the file keeps both counters and both bounds |
| `RateTheorems.AtMostTwiceTheLimit` | backend/app/utils/rate_limit.py:87-136 | under every failure pattern a client of a fail-closed bucket gets at most 2 * limit per window, plus limit per write torn in that window |
| `RateTheorems.BoundIsReached` | backend/app/utils/rate_limit.py:87-136 | for every limit and number k of writes torn in a window some run lets exactly (2 + k) * limit requests of it through |
| `RateTheorems.RedisAnswerIsExact` | backend/app/utils/rate_limit.py:102-107 | for every bucket and failure pattern: a request that Redis answers passes iff fewer than `limit` of the client reached INCR in its window |
| `RateTheorems.FileAnswerIsExact` | backend/app/utils/rate_limit.py:112-136 | and one that it does not answer iff the file counts fewer than `limit` for its window and the count is written or the bucket fails open |
| `RateTheorems.CounterKeyLasts` | backend/app/utils/rate_limit.py:102-106 | a counter gets window + 5 seconds with its first count, and later counts leave its time alone |
| `RateTheorems.ExactWhileRedisIsUp` | backend/app/utils/rate_limit.py:102-107 | in every bucket, if Redis never fails, exactly min(n, limit) pass: the key's expiry never resets a counter inside its window |
| `RateTheorems.AnyIntervalAtMostTwice` | backend/app/utils/rate_limit.py:102-107 | and any interval one window long, aligned or not, lets at most 2 * limit through |
| `FirewallCache.CacheGate.BeginCheck` | backend/app/services/access_control.py:101-106 | the clock is read once; a cache younger than 15 s decides, otherwise the query is made |
| `FirewallCache.CacheGate.CompleteCheck` | backend/app/services/access_control.py:107-109 | the result is cached under the clock read before the query |
| `FirewallCache.CacheGate.InvalidateSecurityCaches` | backend/app/services/access_control.py:43-46 | the cache is empty |
| `FirewallCache.CheckRules` | backend/app/services/access_control.py:111-134 | allowed iff there are no rules, or the address parses, no deny rule matches, and an allow rule matches if there is any |
| `FirewallCache.CidrsOf` | backend/app/services/access_control.py:118-119 | exactly the CIDRs of the rules with that action |
| `FirewallCache.OrderDoesNotMatter` | backend/app/services/access_control.py:118-134 | the verdict depends on the set of rules only |
| `FirewallCache.VerdictMeans` | backend/app/services/access_control.py:111-134 | no rules let everybody in; else an unreadable or denied address is out, and any other in if nothing or something of it is allowed |
| `FirewallTheorems.SteadyTableDecides` | backend/app/services/access_control.py:101-134 | in every interleaving, what held of the table throughout the 15 s before a request and until it decides holds of what it decides with |
| `FirewallTheorems.SteadyActionsDecide` | backend/app/services/access_control.py:202-216 | so an action blocked all that time is in the keys consulted, and one never blocked in it is not |
| `FirewallTheorems.InvStep` | backend/app/services/access_control.py:101-109 | every step of every process keeps: what is cached or held was in the table no earlier than its stamp |
| `FirewallTheorems.NeverStalerThanTtl` | backend/app/services/access_control.py:38-109 | in every interleaving a request that read the clock at t decides with what the table held at a moment later than t - 15 s |
| `FirewallTheorems.StaleForFifteenSeconds` | backend/app/services/access_control.py:101-109 | the bound is reached: replaced rules are decided with for 14.999 s, and from 15 s on the table is asked again |
| `FirewallTheorems.InvalidationHolds` | backend/app/services/access_control.py:43-46 | after an invalidation with no old result in flight, later requests of the process see that table or a newer one, for good |
| `FirewallTheorems.LingeringComesBack` | backend/app/services/access_control.py:104-109 | an old result in flight is stored after the invalidation and the next request decides with it |
| `Blacklists.AccessTables.UpsertBlock` | backend/app/repositories/access.py:80-116 | the one row of the address is active until the new end |
| `Blacklists.AccessTables.UnlockEntry` | backend/app/repositories/access.py:118-132 | the row becomes inactive and nothing else changes |
| `Blacklists.AccessTables.AssertIpAllowed` | backend/app/services/access_control.py:177-200 | admits iff there is no active block that still runs, and unlocks one that has run out |
| `Blacklists.AccessTables.RecordLoginFailure` | backend/app/services/access_control.py:370-410 | the row, then a 15-minute block if the address is not trusted and ten failures lead the window |
| `BlacklistTheorems.WindowDecidesAsHistory` | backend/app/services/access_control.py:393-400 | whatever the 20-row query returns among ties, it decides "ten trailing failures" as the full history |
| `BlacklistTheorems.WindowIsExact` | backend/app/repositories/access.py:36-44 | exactly so when no failure shares its moment with another kind of row |
| `BlacklistTheorems.FailureEffect` | backend/app/services/access_control.py:368-412 | a failure is recorded; an untrusted address whose ten newest rows are failures is blocked for 15 minutes with their number; else the blacklist stays |
| `BlacklistTheorems.FewFailuresDoNothing` | backend/app/services/access_control.py:388-400 | with fewer than ten failures in its history that may be the newest, or trusted, nobody is blocked |
| `BlacklistTheorems.RequestEffect` | backend/app/services/access_control.py:177-191 | a request ends the block of its address if its time is over, and changes nothing else |
| `BlacklistTheorems.OtherEffects` | backend/app/services/access_control.py:518-551 | other rows are only recorded, a manual block is active from then on, an unlock only ends a block |
| `BlacklistTheorems.LazyIsEager` | backend/app/services/access_control.py:177-200 | over any events in time order, lazy expiry answers every request as an eager blocked-until model |
| `BlacklistTheorems.BlockLastsFifteenMinutes` | backend/app/services/access_control.py:388-410 | a failure that leaves ten trailing failures keeps an untrusted address out for 15 minutes, short of an unlock or manual block |
| `BlacklistTheorems.AdmittedExactly` | backend/app/services/access_control.py:177-200 | from any tables and over any events without a reset: let in 15 minutes after the throttle last acted on the address, else exactly as before |
| `BlacklistTheorems.ManualBlockHolds` | backend/app/repositories/access.py:102-116 | a manual block, with or without an end, keeps the address out to its end exactly if the throttle did not act since or its 15 minutes reach that far |
| `SshSync.LogClearWatermarks.Set` | backend/app/services/log_watermarks.py:48-59 | only that stream changes; a failed write is swallowed and the caller is told the moment all the same |
| `SshSync.AttemptLog.SyncSshAttempts` | backend/app/services/access_control.py:479-516 | adds the journal lines after the cutoff whose key no recent row and no earlier line has |
| `SshSync.AttemptLog.ClearAttempts` | backend/app/services/access_control.py:645-649 | the table is empty and the cutoff is now, if it gets written |
| `SshSync.ClearedStaysCleared` | backend/app/services/access_control.py:479-649 | after a clear whose cutoff was written, from any state and until the next clear, every SSH row in the table is later than it |
| `SshSync.NothingOldStays` | backend/app/services/access_control.py:645-649 | a clear empties the table, web rows too: what is there later was stored after it |
| `SshSync.LostWatermark` | backend/app/services/log_watermarks.py:52-58 | over any run up to the next clear: a clear stays clear exactly if the cutoff was written or no journal that is read has a line between the old cutoff and the clear |
| `SshSync.AddsNothing` | backend/app/services/access_control.py:484-513 | a sync adds nothing exactly when the recent rows show every line after the cutoff |
| `SshSync.SecondSyncAddsNothing` | backend/app/services/access_control.py:479-516 | the same journal read twice is stored once, if the second query covers it |
| `SshSync.ShortTableCovers` | backend/app/repositories/access.py:29-34 | which is so whenever the table has at most 300 rows |
| `SshSync.OneRowPerLogin` | backend/app/services/access_control.py:488-512 | in every run a login (address, user, event, second) has at most one row exactly if, since the last clear, no sync met it in the journal while the query did not show its row |
| `SshSync.CoversExactly` | backend/app/repositories/access.py:29-34 | every answer the query may give covers the journal iff each stored SSH row the journal mentions has fewer than 300 others as new |
| `SshSync.HiddenRowIsDoubled` | backend/app/services/access_control.py:487-511 | a stored login with 300 newer rows is stored a second time, whatever the query returns |
| `SshSync.DoubledFromEmpty` | backend/app/services/access_control.py:479-516 | from an empty log: a login synced, n web logins, and synced again is stored twice exactly if n is 300 or more |
| `Allowlist.ParseJoin` | backend/app/core/config.py:410-415 | parsing the comma-joined list gives it back, for trimmed non-empty entries without commas |
| `Allowlist.ParseIsClean` | backend/app/core/config.py:412-414 | whatever is parsed is such a list, so printing and parsing it again changes nothing |
| `Allowlist.RewriteKeeps` | backend/app/services/access_control.py:319-336 | every other line keeps its place, entries keep their order, the address is in each list afterwards; without a list two lines are added |
| `Allowlist.RewriteDoes` | backend/app/services/access_control.py:316-335 | written out: the one allowlist line lists the address behind what it listed, everything else stays, and the process is told the same list |
| `Allowlist.RewriteAdds` | backend/app/services/access_control.py:328-331 | without such a line two are added, the list and the lockdown |
| `Allowlist.RewriteIsIdempotent` | backend/app/services/access_control.py:319-336 | a second rewrite for the address changes nothing, whatever the process believes by then |
| `Allowlist.RewriteLines` | backend/app/services/access_control.py:320-332 | the loop replaces exactly the list lines and ends with the last one's entries |
| `Allowlist.AfterRewrite` | backend/app/services/access_control.py:333-340 | reading the new file's last list gives what the process is told, and it has the address |
| `Allowlist.AdminEnvironment.AppendAdminAllowedIp` | backend/app/services/access_control.py:290-342 | afterwards the process trusts the address and agrees with the file, if there is one; a known address leaves the file alone |
| `Allowlist.FileKeepsUp` | backend/app/services/access_control.py:289-340 | a new address gets into the file, whose last list is then what the process trusts; without a file only the process is told |
| `Allowlist.NobodyForgottenLater` | backend/app/services/access_control.py:297-340 | once file and process agree, over any further appends nobody is forgotten and everybody appended is trusted |
| `Allowlist.OnlyTheFirstForgets` | backend/app/services/access_control.py:319-340 | after the first new address they agree, so over any appends exactly those are forgotten whom the file's last list lacked and who are not appended again |
| `SseReaders.BlocksCut` | frontend/src/lib/aiStream.ts:57 | splitting cuts at blank lines, each as early as possible, and loses nothing |
| `SseReaders.CutUnique` | frontend/src/lib/aiStream.ts:57 | only one list of blocks is such a cut |
| `SseReaders.BlocksAppend` | frontend/src/lib/aiStream.ts:56-58 | cutting what was read and then the rest with the next read is cutting it all, also when a separator straddles two reads |
| `SseReaders.EventsConcat` | frontend/src/lib/aiStream.ts:59-72 | the events of two lists of blocks are those of the first and, unless it ended at the mark, of the second |
| `SseReaders.StoppedForGood` | frontend/src/lib/aiStream.ts:66 | text after the end mark changes nothing |
| `SseReaders.ReadPieces` | frontend/src/lib/aiStream.ts:52-73 | for every way of cutting the text into reads the loop yields the events of the whole text, last block dropped |
| `SseReaders.ReadSseStream` | frontend/src/lib/aiStream.ts:42-74 | the same, or the error for a bad status or a missing body |
| `SseReaders.SpacesAre` | frontend/src/lib/aiStream.ts:62-65 | the white space of `trim` and `\s`, by code points |
| `SseMessages.BlockMeans` | frontend/src/lib/aiStream.ts:60-72 | a block means the message on its first data line, whatever other lines and white space are around it |
| `SseMessages.ReadBack` | frontend/src/lib/aiStream.ts:52-73 | messages sent as data lines are read back in order, those that parse, up to the end mark; what follows is read on, or ignored after the mark |
| `SseMessages.AnswerIsReadBack` | backend/app/routers/v1/ai.py:79-88 | a whole answer of the server, cut anyhow, gives its events |
| `BlockCutting.CutIsUnique` | scripts/ols-patch-panel-safe.py:55-56 | every list of lines has exactly one reading as a preamble and functions |
| `BlockCutting.ReplaceInLines` | scripts/ols-patch-panel-safe.py:49-59 | the nested index loops, for any notion of header and of wanted name |
| `BlockCutting.LoopIsMap` | scripts/ols-patch-panel-safe.py:49-60 | the loops equal: cut into preamble and functions, replace each wanted function |
| `ReplaceFunctions.JoinSplit` | scripts/ols-patch-panel-safe.py:48 | joining the split lines gives the text back, for every line break Python knows |
| `ReplaceFunctions.SplitJoin` | scripts/ols-patch-panel-safe.py:60 | splitting joined lines gives the lines back |
| `ReplaceFunctions.StartsMeansNamed` | scripts/ols-patch-panel-safe.py:52-55 | a line starts the function of a name iff it matches the header pattern and that is the name in it |
| `ReplaceFunctions.BreaksAre` | scripts/ols-patch-panel-safe.py:48 | the line breaks of `splitlines`, by code points |
| `ReplaceFunctions.LettersAre` | scripts/ols-patch-panel-safe.py:52-55 | the letters and digits of the header pattern, by code points |
| `ReplaceFunctions.ClosedIs` | scripts/ols-patch-panel-safe.py:53 | a stub gets a line break if it has none |
| `ReplaceFunctions.ReplaceFunction` | scripts/ols-patch-panel-safe.py:47-60 | the whole function on texts, for every name and body |
| `ReplaceFunctions.NewScript` | scripts/ols-patch-panel-safe.py:47-60 | reading the new text again gives the old preamble and functions, with each function of that name replaced and no other touched |
| `ReplaceFunctions.ReplaceIsIdempotent` | scripts/ols-patch-panel-safe.py:47-60 | replacing twice is replacing once, for stubs whose only header is their first line |
| `ReplaceFunctions.ReplacementsCommute` | scripts/ols-patch-panel-safe.py:65-66 | replacements for different names commute |
| `ReplaceStable.StableExactly` | scripts/ols-patch-panel-safe.py:47-60 | a stub that begins with the wanted function is stable on every text (twice is once) exactly if it holds no other header |
| `PasswordReset.PasswordResetService.RequestReset` | backend/app/services/password_reset.py:35-63 | closes the account's open tokens and adds one for 60 minutes; nothing for an unknown, deleted or inactive account |
| `PasswordReset.PasswordResetService.ConfirmReset` | backend/app/services/password_reset.py:91-130 | accepted: sets that account's password and leaves it no open token; refused: changes nothing |
| `PasswordReset.InvRun` | backend/app/services/password_reset.py:45-63 | every run of requests, confirms and account changes keeps: only the latest token of an account can be open |
| `PasswordReset.OneOpenToken` | backend/app/services/password_reset.py:45-53 | in every run an account has at most one unused token |
| `PasswordReset.RowsAreIssues` | backend/app/services/password_reset.py:55-63 | the rows are, in order, the tokens handed out, each good for 60 minutes |
| `PasswordReset.OnlyTheLatest` | backend/app/services/password_reset.py:91-115 | in every run a confirm succeeds only with the account's latest token, at most 60 minutes after it was handed out |
| `PasswordReset.AcceptedExactly` | backend/app/services/password_reset.py:91-115 | accepted iff the token has 20 characters and the password 8, the row is unused and in time, and the account active |
| `PasswordReset.EachTokenOnce` | backend/app/services/password_reset.py:103-118 | in every run each token is accepted at most once |
| `PasswordReset.RequestHandsOut` | backend/app/services/password_reset.py:35-63 | a request closes just the account's open tokens and hands out one for an hour |
| `PasswordReset.LatestTokenWorks` | backend/app/services/password_reset.py:35-130 | the token an account asked for works for an hour, whatever happens to other accounts and tokens, and sets just that account's password |
| `PasswordReset.UsedStaysUsed` | backend/app/services/password_reset.py:117-128 | a used token keeps its moment of use for good |
| `PasswordReset.DeletedAccountCanConfirm` | backend/app/services/password_reset.py:112-114 | deleting the account changes nothing for a confirm and stops requests |
| `Permissions.PermissionsForRoles` | backend/app/core/permissions.py:273-281 | strictly sorted, and has a permission's string iff some role grants it or the user is a superuser |
| `Permissions.OneSortedList` | backend/app/core/permissions.py:281 | two strictly sorted lists with the same strings are equal, so the list is determined |
| `Permissions.TableBothWays` | backend/app/core/permissions.py:93-202 | the role table read by permission says the same |
| `Permissions.ParsePrinted` | backend/app/core/permissions.py:72-89 | `Role(s)` is the role of that name, if there is one |
| `Privileges.ListPermissions` | backend/app/core/permissions.py:273-281 | the list has a permission exactly when the guard allows it without an overlay |
| `Privileges.AllowsExactly` | backend/app/services/auth.py:278-301 | the guard on permission strings, decided by the role acted in or else by the stored roles |
| `Privileges.NeverMoreThanStored` | backend/app/services/auth.py:257-301 | with names stored in lower case no token allows more than the stored roles |
| `Privileges.RunNeverExceeds` | backend/app/services/auth.py:232-342 | the same over every run of switch, restore and refresh with the account edited in between |
| `Privileges.OverlayIsLastSwitch` | backend/app/services/auth.py:303-365 | the overlay in a session's token is the role of the last accepted switch, with no switch or restore accepted since |
| `Privileges.SwitchDecides` | backend/app/services/auth.py:303-327 | an active superadmin switches to any lesser role by its name, in any case and with spaces around, and may then do just what it may; other roles change nothing |
| `Privileges.UnknownNamesChangeNothing` | backend/app/services/auth.py:311-315 | nor does any other name |
| `Privileges.RestoreDecides` | backend/app/services/auth.py:329-342 | a restore gives the stored powers back; nobody else can switch or restore |
| `Privileges.StoredMeans` | backend/app/services/auth.py:288-301 | without an overlay: a superuser anything, others what a role stored under its own name grants |
| `Privileges.RefreshKeepsPowers` | backend/app/services/auth.py:232-249 | refreshing does not change the role a session acts in |
| `Privileges.LapsedOverlayIsGone` | backend/app/services/auth.py:241-249 | after a refresh while the account may not switch, only a new accepted switch gives the session a role to act in |
| `Privileges.DemotionLiftsTheOverlay` | backend/app/services/auth.py:356-365 | an account that may not switch has its stored powers, whatever role its token names |
| `Privileges.ExceedsExactly` | backend/app/services/auth.py:349-365 | however names are stored, no overlay exceeds the stored roles iff the account cannot switch, has all permissions, or has an admin and an operator role |
| `Privileges.MixedCaseSwitches` | backend/app/services/auth.py:353-354 | an account with the one role "SuperAdmin" can switch, has no role of its own, and is not of that kind |
| `PlanResources.SnapIsNearest` | frontend/src/lib/planResources.ts:45-47 | the fold over any ascending list gives the nearest value, the lower one on ties |
| `PlanResources.SnapIsMonotone` | frontend/src/lib/planResources.ts:45-72 | snapping is non-decreasing |
| `PlanResources.NearestIsUnique` | frontend/src/lib/planResources.ts:45-47 | being the nearest, lower on ties, determines the value |
| `PlanResources.DearerIsNoLess` | frontend/src/lib/planResources.ts:53-81 | every field is non-decreasing in the price |
| `PlanResources.Anchors` | frontend/src/lib/planResources.ts:49-65 | the two documented anchors hold for CPU and RAM |
| `PlanResources.MegabytesComeBack` | frontend/src/lib/planResources.ts:32-39 | whole megabytes come back from gigabytes iff they are at least 64; rounding loses under 0.052 MB |
| `PlanResources.PlanMemoryComesBack` | frontend/src/lib/planResources.ts:65-76 | the memory is a listed value and the stored gigabytes give it back |
| `PlanResources.CpuFollowsTheLine` | frontend/src/lib/planResources.ts:62-64 | the CPU share is within half a step of the line through 0.25 at 30 and 0.5 at 70, from 0.1 up to 16 |
| `PlanResources.SizesFollowTheirLines` | frontend/src/lib/planResources.ts:63-75 | memory and storage are the listed sizes nearest to their lines, the lower of two, in their bounds |
| `PlanResources.MemorySteps` | frontend/src/lib/planResources.ts:41-43 | the memory sizes are 128 and 192 MB, doubled again and again up to 32 GB |
| `PlanResources.OthersFollowTheirLines` | frontend/src/lib/planResources.ts:78-79 | bandwidth and credits are within half a step of their lines, above their floors |
| `PlanResources.NothingBuysTheLeast` | frontend/src/lib/planResources.ts:61 | what is no number, and what is not above zero, buys the smallest plan |
| `PlanResources.MegabytesOf` | frontend/src/lib/planResources.ts:36-39 | megabytes are the gigabytes times 1024, rounded, and at least 64 |
| `Totp.Offset` | backend/app/services/totp.py:29-30 | truncation reads inside the 20-byte digest |
| `Totp.MaskLow` | backend/app/services/totp.py:29 | the mask 0x0F on a byte is the remainder by 16 with which the offset is computed |
| `Totp.MaskSign` | backend/app/services/totp.py:30 | the mask 0x7FFFFFFF on 32 bits is the remainder by 2^31 |
| `Totp.TruncationIs` | backend/app/services/totp.py:29-30 | the low four bits of the last byte choose four bytes, and their top bit is dropped |
| `Totp.WorkedExample` | backend/app/services/totp.py:29-31 | the example of section 5.4 of RFC 4226 gives 872921 |
| `Totp.Hotp` | backend/app/services/totp.py:24-31 | exactly six digits, or an exception iff the secret does not decode or the counter does not fit eight bytes |
| `Totp.CodesAgree` | backend/app/services/totp.py:30-31 | two codes are equal iff the truncated values agree modulo 10^6, and the code's number is that remainder |
| `Totp.MessagesDiffer` | backend/app/services/totp.py:27 | different counters make different HMAC messages |
| `Totp.ValueOfBigEndian` | backend/app/services/totp.py:27 | the message is the counter to base 256, most significant byte first |
| `Totp.VerifyCode` | backend/app/services/totp.py:40-48 | the loop accepts iff one of the counters in the window has the code, and says when it raises |
| `Totp.VerifyMadeCode` | backend/app/services/totp.py:34-48 | a code made at one time is accepted at another whose counter differs by at most one, except that the counter 0 raises |
| `Totp.AcceptedIsOneOfThree` | backend/app/services/totp.py:45-47 | with the default window, a match means one of three counters |
| `Totp.HowLongACodeLasts` | backend/app/services/totp.py:36-45 | codes are good for 30 seconds and none for a minute or more |
| `Totp.StartOfTheEpoch` | backend/app/services/totp.py:44-46 | the counter is below 1 exactly in the first half minute |
| `Totp.CounterIs` | backend/app/services/totp.py:36 | the counter counts half minutes |
| `Totp.OthersAreSkipped` | backend/app/services/totp.py:41 | anything but digits may stand in a code |
| `Totp.PaddingComesBack` | backend/app/services/totp.py:14-25 | stripping and re-padding restores a text iff its length is a multiple of 8 with less than 8 padding characters |
| `Totp.StoredSecretDecodes` | backend/app/services/totp.py:13-31 | a secret stored without its padding gives the six digits of the truncated digest of its key and the counter's eight bytes |
| `PortDedup.ApplicationInstances.ClearDuplicates` | backend/alembic/versions/0027_app_port_unique.py:19-47 | the nested loops take each shared port from every row but its oldest, in whatever order the ports come |
| `PortDedup.SelectHolders` | backend/alembic/versions/0027_app_port_unique.py:31-40 | exactly the rows of the port, by creation with nulls last and then id |
| `PortDedup.HoldsExactly` | backend/alembic/versions/0027_app_port_unique.py:30-47 | afterwards a row holds a port iff it was the oldest to hold it |
| `PortDedup.KeeperIsFirst` | backend/alembic/versions/0027_app_port_unique.py:31-40 | of the rows that had the port, the one that keeps it was created first, rows without a time counting as last and ids deciding |
| `PortDedup.NothingShared` | backend/alembic/versions/0027_app_port_unique.py:49-55 | no two rows share a port, so the unique index can be created |
| `PortDedup.SamePortsInUse` | backend/alembic/versions/0027_app_port_unique.py:30-47 | the ports in use are the same |
| `PortDedup.ChangedExactly` | backend/alembic/versions/0027_app_port_unique.py:41-47 | a row changes iff an older one held its port, and then only its port goes |
| `PortDedup.DedupedTwice` | backend/alembic/versions/0027_app_port_unique.py:19-47 | running the clearing again changes nothing |

## Left out

- Workers: malformed messages, the periodic tickers, the lengths of the delays, expiry of status keys, and processes killed in the middle of a step.
- WorkerEndings.NeverStuck: for processes started with at least one worker loop.
- WorkerTheorems.BoundedRuns: not stated for jobs submitted with a negative attempt number, which the model runs too; their bound is in the invariant.
- Challenges: upper-casing and trimming of ids and codes, single stored challenges that do not parse, `get_challenge`, and two calls interleaved inside one another; each call is one step, and ids are not drawn twice.
- Limit file and rate limiter: reads of the file succeed and one process writes it; the table that maps a path to a bucket, and its settings, are inputs.
- Firewall: address and CIDR arithmetic is the parameter `covers`; the loopback exemption and the admin lockdown are left out, each settled by one branch.
- Blacklist: which addresses are trusted is an input; reasons, fingerprints and notes on the rows are not modelled.
- SSH sync: parsing the journal, rows without a time, and a watermark file that cannot be read, which reads as no cutoff.
- Allowlist: cutting the file into lines and the final newline; a process whose own variable is unset and reads the file instead; writing the file is assumed to succeed. The settings read quotes and inline comments in that file, the rewriting does not: behind a comment on the line a new address is not read back.
- Allowlist.AdminEnvironment.AppendAdminAllowedIp: the address has no comma and no space around it, as every parsed address.
- Event streams: decoding bytes to text, and a connection that breaks off while it is read.
- Script patching: the textual substitutions in `main` and reading and writing the script.
- ReplaceFunctions.NewScript: for names that are identifiers, as all those the script replaces; `ReplaceFunction` is modelled for every name.
- Password reset: normalising the address, mailing the link, removal of accounts (they are only marked deleted), and the hash of two tokens being equal, which the table's unique constraint excludes.
- Privileges: signing and decoding of tokens, their scopes and lifetimes; `str.lower` acts on ASCII letters, the only ones in role names.
- Plan resources: floating-point rounding, infinite prices and the formatting functions.
- One-time passwords: the provisioning link, backup codes, and the alphabet of base 32.
- Port migration: the index itself and the downgrade.
- Fine-grained races inside SQL transactions, and everything that only draws the user interface.
