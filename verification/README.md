# RouteGlass: verified model

A Dafny 4.11 model of the accounting and protocol code of RouteGlass (a server, its measuring agents and the
browser's test engine) with machine-checked proofs of what that code keeps over whole runs. Verify it with
`dafny verify dfyconfig.toml`.

| Component | Modules | Form |
|---|---|---|
| Agent quota ledger | `AgentLedger` (step machine), `LedgerObject` (the class with its records and closures), `LedgerAnswers`, `LedgerQuota`, `LedgerOverflow`, `LedgerStreams`, `LedgerMidnight`, `LedgerMidnightRun`, `LedgerRefinement`, `Int64`, `Claims` | class proved against the machine; theorems over all runs of the machine |
| Browser engine | `Engine` (step machine), `EngineBytes`, `EngineObject` (shared variables, download body loop), `OrderStatistics` | class and loops proved against functions |
| Engine and agent together | `Protocol` | composition of the two machines |
| Server admission and enrolment | `RateLimiter`, `LimiterBound`, `LimiterRuns`, `LimiterRefusals`, `Admission`, `OneTimeTokens`, `Enrolment`, `EnrolmentRows` | classes over rows and maps; machine of interleaved handlers |
| Updater | `Updater` | class over a file system in which every operation may fail |
| Grants | `Base64Url`, `Grants`, `Authorisation` | functions; machine of server and agents |
| Score | `Score` | loop proved against a function over exact reals |
| Client address | `ClientAddress` | loops proved against a description of the result |

Time, randomness, the readability of a file and the outcome of each I/O operation are parameters or
nondeterministic choices; a theorem that needs one of them to go well names it as a condition. Go's `int64` sums wrap
explicitly (`Int64`).

## What holds, and what does not

- **Daily quota.** No interleaving of requests, releases, failed writes, midnights and crashes grants more than the
  limit on a calendar day (`LedgerQuota.DailyCeiling`), as long as limit plus request stay under 2^63 and the quota
  file can be read after a restart. Both conditions are needed. `LedgerOverflow.CeilingIff`: for any caps, all runs keep
  the ceiling if and only if the limit plus the largest request is an int64. For requests as the two handlers make them,
  one direction at a time under the server's caps of 150 and 100 million bytes, that means a limit of at most
  2^63 - 1 - 150,000,000; the default of 50 GiB (internal/agent/agent.go:88) is far below that, and the run that fails
  fills the whole limit first. `LedgerOverflow.UnreadableRestartBreaksTheCeiling`: one restart that cannot read the file
  is enough to exceed any limit; `RestartKeepsQuotaIff` says when a restart keeps the quota.
- **Answers of the ledger.** In every run a request is let in if and only if its quota file can be written and every
  limit leaves room for it, each limit in terms of the run's own history (`LedgerAnswers.AnswerIff`); and the quota
  counted is exactly what was granted and what a crash between the write and the answer swallowed (`QuotaIsExact`).
- **Midnight and the stream counts.** The rollover replaces the table of running tests while old release closures are
  still pending, and such a closure then lowers the count of the new day. `ReleaseStaysExactIff` says which closures
  do harm, `MidnightLosesATest` shows a run after which a running test is no longer counted and another is let in
  although only one may run. What survives in every run is `StreamsAccounted`; the tests that really run exceed the
  configured maximum by at most the late releases of the epoch (`LedgerMidnight.RunningTestsBounded`, reached for every
  maximum and every number by `LedgerMidnightRun.RunningTestsBoundIsReached`); exactness without
  such closures is `ActiveIsExact`.
- **Refusals.** The ledger refines a simple eager one that forgets everything at midnight and ignores what it refuses
  (`RunRefines`), so deleting refused requests from a run changes no other answer (`RefusalsAreInvisible`).
- **Byte budget.** The agent's per-nonce byte test never refuses a request of the engine that holds the grant
  (`Protocol.NeverRefusedForBytes`).
- **Measured bytes.** Every byte the engine reserves is counted, still expected, or given up with a request that
  failed (`EngineBytes.BytesAccounted`); a measurement in time spends its whole budget (`BudgetIsSpent`).
- **Enrolment.** The key in a node row is exactly the one a join wrote for that node (`KeysComeFromJoins`). A join with a
  live token and an invalid key spends the token (`JoinAnswers`), as the code consumes it before it looks at the key.
- **Tests per session.** `createTest` discards the errors of its two queries, and a query that failed counts as zero.
  `FailedQueryKeepsPaceIff` says when a call with a failed query still keeps the pace, `RunPacedIff` the same of a whole
  run, and `SixTests` is a run in which one failed count lets a sixth test into ten minutes. Unless a query fails in a
  call that creates a test, tests are 30 s apart and five in any ten minutes (`TestsArePaced`), and a session gets at
  most 16 tests within its 30 minutes. 17 can be created in all: `createTest` checks the session once, and a call held
  up after that check, for half a minute say, inserts its row when the window has moved on (`LifetimeTotal`,
  `SeventeenTests`). Without such a call the bound is 16 (`PromptCallsCreateSixteen`).
- **Rate limiter.** With clock readings in order a fixed window lets through up to `2 * maximum - 1` attempts in one
  window length, and no more. But the clock is read before the lock is taken (internal/server/server.go:303-304), so
  readings can reach the table out of order. Then a third bucket can take part: the bound becomes `3 * maximum - 2`
  without sweeps, and `3 * maximum - 1` with them for lags up to about a quarter of the window. Each bound is reached,
  the last by readings a single unit behind. For any lag below the window there is a bound (`AnyLagBound`), for a lag of
  a whole window there is none (`BoundedIff`). With readings in order an attempt is refused only when the
  last window already holds the maximum (`RefusedOnlyWhenFull`). The sweep is invisible if and only if readings come in
  order (`SweepInvisibleIff`); `SweepShowsIff` says which answers it changes.
- **Updater.** Up to the confirmed activation the original program survives every step. An update in which only one
  operation fails (failed removals and restarts aside) hands the original program and data back to a service start, or,
  when that operation is the first stop, leaves everything as it was without a start. Until that restart each original
  database file is at hand, in its place or its backup, in every state. Two failures can lose the
  database: rollback removes a backup even when copying it back failed. Rollback's contract says that exactly those
  files are lost whose own round loses them (`RestoreLosesIff`), whatever else fails; `RollbackCanLoseTheDatabase` gives
  the case. The data after a rollback is *exactly* the old data if and only if the
  failed service created no database file that was not there before: rollback removes none (`RollbackIsExactIff`).
- **Grants.** Base64url decoding is lenient, but only one spelling of a token is accepted. The agent lets a request
  in only under a grant stamped between 5 s in its future and 60 s in its past, on its own clock.
- The repository's README says agents enforce a cooldown (README.md:114). The agent's code has none; the model follows
  the code, and the cooldown proved is the server's.

## Model

| member | source | states |
|---|---|---|
| LedgerObject.LedgerState.constructor | internal/agent/agent.go:400-410 | a restarted agent is in the machine's rebooted state: quota kept only when the file is readable and of today |
| LedgerObject.LedgerState.PersistLocked | internal/agent/agent.go:412-425 | the quota file holds the ledger's own day and total after a successful write, and is untouched after a failed one |
| LedgerObject.LedgerState.Rollover | internal/agent/agent.go:345-357 | the mutable fields move exactly as the machine's `Open`; records of older days are cut off but stay alive in closures |
| LedgerObject.LedgerState.Lookup | internal/agent/agent.go:365-369 | the record found or newly made is the one in the table, and only that entry may be new |
| LedgerObject.LedgerState.Weigh | internal/agent/agent.go:365-398 | once the test may run: refused by a cap, undone after a failed write, or granted, with the table as the machine has it |
| LedgerObject.LedgerState.Add | internal/agent/agent.go:373-377 | charging through the record's reference changes exactly the charged nonce |
| LedgerObject.LedgerState.Subtract | internal/agent/agent.go:379-386 | the undo after a failed write, through the same reference |
| LedgerObject.LedgerState.Commit | internal/agent/agent.go:373-398 | charge, write and hand out the closure, or leave the ledger as the machine's refund does |
| LedgerObject.LedgerState.TakeBack | internal/agent/agent.go:378-388 | a failed write keeps the invariant and the file |
| LedgerObject.LedgerState.Reserve | internal/agent/agent.go:341-398 | `reserve` is one step of the machine and grants exactly what the machine accepts |
| LedgerObject.LedgerState.Release | internal/agent/agent.go:389-397 | a closure, however old, is the machine's release step: it reaches the record it captured, current or not |
| LedgerAnswers.AnswerIff | internal/agent/agent.go:355-388 | in every run, exactly which requests are let in, by streams open, tests running, bytes granted to the nonce and on the day |
| LedgerAnswers.QuotaIsExact | internal/agent/agent.go:377-425 | in every run the quota counted today is what was granted today plus what crashes swallowed |
| LedgerAnswers.StateAnswers | internal/agent/agent.go:355-372 | the same of one state, with the int64 sums as they are |
| LedgerQuota.DailyCeiling | internal/agent/agent.go:341-425 | in every run the bytes granted on any day stay within the limit, and memory and file agree on today's quota |
| LedgerQuota.StepKeepsQuota | internal/agent/agent.go:341-425 | the quota invariant is kept by every event |
| LedgerQuota.RefundUndoesCharge | internal/agent/agent.go:373-388 | undoing a charge restores every counter, int64 wrap-around included |
| LedgerQuota.AdmittedWithinLimitIff | internal/agent/agent.go:370 | an admitted request is within the limit if and only if the true sum is an int64 |
| LedgerQuota.RestartKeepsQuotaIff | internal/agent/agent.go:400-410 | a restart keeps today's quota iff the file is readable or nothing was used today |
| LedgerOverflow.CeilingIff | internal/agent/agent.go:370-377 | for all limits and caps, all runs keep the ceiling iff the limit plus the largest request is an int64, with one direction a request or both |
| LedgerOverflow.OverflowBreaksTheCeiling | internal/agent/agent.go:370-377 | without that room, a run under any caps, the server's included, that grants 2^63 bytes on one day |
| LedgerOverflow.FillingReaches | internal/agent/agent.go:341-398 | requests under any caps can use up the limit to the byte |
| LedgerOverflow.UnreadableRestartBreaksTheCeiling | internal/agent/agent.go:400-410 | a run with one unreadable restart exceeds any limit |
| LedgerQuota.BytesConserved | internal/agent/agent.go:352-388 | daily total = quota at the start of the epoch + sum over all nonces; each nonce equals its history and stays in its caps, streams included, in every reachable state |
| LedgerQuota.NoCounterOverflows | internal/agent/agent.go:370-377 | with limit and request together under 2^63 no sum of any run overflows |
| LedgerStreams.StreamsAccounted | internal/agent/agent.go:345-397 | in every run, midnights included: stream counts equal the open reservations of the epoch, test counts never exceed them, concurrency holds |
| LedgerStreams.StreamCap | internal/agent/agent.go:370-373 | an accepted reservation leaves its nonce within the signed number of streams |
| LedgerStreams.ReleaseStaysExactIff | internal/agent/agent.go:389-397 | which release closures keep the count of their test exact, both directions |
| LedgerStreams.ActiveIsExact | internal/agent/agent.go:345-397 | while no reservation spans a rollover, `active` is exactly the open tests with their numbers of streams |
| LedgerMidnight.RunningTestsBounded | internal/agent/agent.go:345-397 | in every run the tests really running exceed the maximum by at most the late releases of the epoch, plus the old closures still pending |
| LedgerMidnightRun.RunningTestsBoundIsReached | internal/agent/agent.go:345-397 | for every maximum and every n, a run with n late releases and n running tests above the maximum |
| LedgerMidnight.StepKeepsShort | internal/agent/agent.go:389-397 | each event keeps every test's count short by no more than that test's late releases |
| LedgerStreams.MidnightLosesATest | internal/agent/agent.go:346-351 | a four-event run after which a running test is not counted and any other is admitted |
| LedgerRefinement.StepRefines | internal/agent/agent.go:341-425 | each event of the lazy ledger is one event of the eager ledger, with the same answer |
| LedgerRefinement.RunRefines | internal/agent/agent.go:341-425 | the same over whole runs |
| LedgerRefinement.RefusalSameView | internal/agent/agent.go:362-388 | a request refused by a cap, the concurrency limit or a failed write leaves nothing observable |
| LedgerRefinement.EagerIgnoresRefusals | internal/agent/agent.go:346-388 | in the eager ledger any set of refusals can be deleted from a run |
| LedgerRefinement.RefusalsAreInvisible | internal/agent/agent.go:346-388 | deleting any set of refused requests from any run keeps all other answers, the file and the history |
| Engine.WorkersFollowThePlan | web/src/test-engine.ts:71-97 | for any number of workers and any interleaving the requests are a prefix of one fixed plan; never over budget, at most ceil(cap/chunk), bytes within reserved |
| Engine.PlanShape | web/src/test-engine.ts:77-80 | the plan spends the budget exactly, in full chunks but the last |
| EngineBytes.BytesAccounted | web/src/test-engine.ts:77-95 | in every interleaving bytes counted, expected and given up add up to the requests; at the end the count is short by what was given up |
| EngineBytes.BudgetIsSpent | web/src/test-engine.ts:131-147 | a measurement in time issues the whole plan and counts its budget but for what was given up |
| Engine.EffectiveStepsDescend | web/src/test-engine.ts:75-97 | every effective step of any worker lowers one shared measure |
| Engine.MeasurementEnds | web/src/test-engine.ts:127-148 | no interleaving takes more than 4 * cap + workers effective steps |
| EngineObject.Measure | web/src/test-engine.ts:66-108 | a whole measurement ends whatever its workers do; the bytes are those of the requests but for what was given up, the requests a prefix of the plan |
| EngineObject.Measurement.Proceed | web/src/test-engine.ts:75-97 | whatever a worker does next keeps the budget and comes closer to the end |
| EngineObject.Measurement.constructor | web/src/test-engine.ts:72-75 | a measurement starts with nothing reserved or counted |
| EngineObject.Measurement.Next | web/src/test-engine.ts:76-80 | the loop head reserves before it awaits, asks for the chunk or what is left, and never overdraws the budget |
| EngineObject.Measurement.Settle | web/src/test-engine.ts:136-140 | a settled response is the machine's step: a successful upload counts exactly its body, a download starts to read |
| EngineObject.Measurement.Receive | web/src/test-engine.ts:86-89 | a body part is counted once, within what was reserved |
| EngineObject.Measurement.Finish | web/src/test-engine.ts:86-96 | a body ends or breaks off without counting anything more |
| EngineObject.WriteBody | internal/agent/agent.go:452-464 | the agent writes exactly the promised bytes unless a write fails, in full buffers but the last |
| Protocol.NeverRefusedForBytes | internal/agent/agent.go:365-377 | in every run of engine and agent, whichever request arrives next passes the size check and the per-nonce byte test |
| Protocol.RoomForTransit | web/src/test-engine.ts:75-80 | what arrived plus any request under way fits what the client reserved |
| Protocol.DeliveredIsCharged | internal/agent/agent.go:365-377 | a delivered request that is let in is charged once, in its direction and with its size |
| Protocol.NothingVanishes | web/src/test-engine.ts:80-83 | in a run that loses nothing, what was issued is what arrived and what is under way |
| Protocol.DefaultsAreSigned | web/src/api.ts:138 | the client's default budgets are the signed caps |
| Protocol.StepKeepsInv | web/src/api.ts:134-138 | client reservations dominate the agent's counters after every event; the client's default caps are the signed ones |
| OrderStatistics.MedianOfPermutation | web/src/test-engine.ts:12-17 | the median does not depend on the order of the samples |
| OrderStatistics.MedianIsCentral | web/src/test-engine.ts:12-17 | the median is within the samples' bounds and has at least half of them on each side |
| OrderStatistics.MedianOfTwo | web/src/test-engine.ts:16 | the median of two samples is their mean |
| OrderStatistics.MedianOfInner | web/src/test-engine.ts:12-17 | leaving out the smallest and the largest of three or more changes no median |
| OrderStatistics.JitterOfSteadyChange | web/src/test-engine.ts:19-23 | jitter is the change between neighbours where that is constant |
| OrderStatistics.JitterIsCentral | web/src/test-engine.ts:19-23 | at least half of the changes between neighbours are no larger, and half no smaller |
| OrderStatistics.SamplesAt | web/src/test-engine.ts:46-55 | an answered probe gives its sample in its place, a lost one none |
| OrderStatistics.JitterWithinSpread | web/src/test-engine.ts:19-23 | jitter is between zero and the spread of the samples |
| OrderStatistics.JitterOfShifted | web/src/test-engine.ts:19-23 | adding a constant to every sample changes no jitter |
| OrderStatistics.LossBelowHundred | web/src/test-engine.ts:58 | fewer failures than probes give a loss in [0, 100) that accounts for every failure |
| OrderStatistics.MeasureLatency | web/src/test-engine.ts:40-59 | the loop reports median, jitter and loss of exactly the successful probes; it fails iff aborted or all probes failed |
| RateLimiter.Limiter.Sweep | internal/server/server.go:306-312 | the sweep loop keeps exactly the unexpired buckets, in whatever order it visits them |
| RateLimiter.Limiter.AllowAttempt | internal/server/server.go:302-323 | answer and new table of one attempt, sweep included |
| RateLimiter.Limiter.ClearAttempts | internal/server/server.go:325-329 | only the key's bucket goes |
| RateLimiter.SweepIsInvisible | internal/server/server.go:306-315 | on every trace with readings in order the limiter answers like one that never sweeps |
| RateLimiter.SweepShowsIff | internal/server/server.go:306-315 | when a sweep at one reading changes an answer at another, with one window or two, both directions |
| RateLimiter.UncrowdedNeverSweeps | internal/server/server.go:306 | a table of at most 4096 keys behaves as if it never swept |
| LimiterRuns.SweepInvisibleIff | internal/server/server.go:303-315 | the sweep is invisible on all traces iff readings never lag |
| LimiterRefusals.RefusedOnlyWhenFull | internal/server/server.go:313-322 | with readings in order a refusal means that the last window holds the maximum already |
| LimiterRefusals.ClearedIsAllowed | internal/server/server.go:325-329 | after a clear the next attempt on the key is allowed |
| LimiterBound.WindowBound | internal/server/server.go:302-329 | with readings in order, between clears every half-open window holds at most 2 * maximum - 1 allowed attempts |
| LimiterBound.LaggingBound | internal/server/server.go:302-323 | with readings up to a window behind and no sweep, at most 3 * maximum - 2 |
| LimiterBound.SweepingBound | internal/server/server.go:302-323 | with readings up to a quarter of a window behind, sweeps included, at most 3 * maximum - 1 |
| LimiterBound.AnyLagBound | internal/server/server.go:302-323 | a bound for every lag below the window, sweeps included |
| LimiterBound.RoomBounds | internal/server/server.go:302-323 | what is let through never exceeds what the stored bucket and its successors can still let through |
| LimiterRuns.WindowBoundIsTight | internal/server/server.go:302-323 | the bound for readings in order is reached for every maximum and window |
| LimiterRuns.LaggingBoundIsTight | internal/server/server.go:302-323 | a run with readings two units behind lets 3 * maximum - 2 through |
| LimiterRuns.SweepingBoundIsTight | internal/server/server.go:302-323 | a run with two sweeps and readings one unit behind lets 3 * maximum - 1 through |
| LimiterRuns.BoundedIff | internal/server/server.go:302-323 | the limiter has a bound at all iff readings lag by less than its window |
| Admission.TestRows.CreateTest | internal/server/server.go:512-541 | outcome and new rows of one call with its four clock readings and the success of its four statements; other sessions untouched |
| Admission.FewAfterIff | internal/server/server.go:523 | the counting query in terms of the n-th latest row |
| Admission.CreatedIff | internal/server/server.go:512-541 | exactly when a call creates a test, failed statements included |
| Admission.RefusedIff | internal/server/server.go:512-541 | what exactly each refusal means, in the order the reasons are looked at |
| Admission.FailedQueryKeepsPaceIff | internal/server/server.go:522-533 | a creating call keeps the pace iff what a failed query would have found allows it |
| Admission.RunPacedIff | internal/server/server.go:522-533 | a run keeps the pace iff each of its tests was created in pace |
| Admission.SixTests | internal/server/server.go:523 | one failed count query lets a sixth test into ten minutes |
| Admission.TestsArePaced | internal/server/server.go:522-533 | unless a query fails in a creating call: consecutive tests are 30 s apart and any half-open 600 s holds at most five |
| Admission.LifetimeTotal | internal/server/server.go:406-418 | under the same condition: at most 16 tests within the session's life and at most one after it |
| Admission.PromptCallsCreateSixteen | internal/server/server.go:430 | under the same condition: sixteen in all when no call inserts after the session is over |
| Admission.SeventeenTests | internal/server/server.go:512-541 | seventeen non-overlapping calls of one session, no query failing, that all succeed |
| OneTimeTokens.Store.ConsumeOneTime | internal/store/store.go:70-84 | one row changes from unused to used iff unused and unexpired; other tables and database errors are reported and change nothing |
| OneTimeTokens.ConsumeKeepsInv | internal/store/store.go:74 | every row is used at most once and never after it expired |
| OneTimeTokens.DistinctFit | internal/store/store.go:74-82 | distinct uses are no more than the tokens there are |
| Enrolment.StepKeepsInv | internal/server/server.go:1042-1085 | every statement of every interleaved handler, failing ones included, and of the administrator keeps the enrolment invariant |
| EnrolmentRows.KeysComeFromJoins | internal/server/server.go:1073-1079 | in every interleaving a node row holds a key iff a join wrote that key for that node |
| EnrolmentRows.JoinAnswers | internal/server/server.go:1042-1085 | what a join alone answers and leaves, for dead and live tokens, invalid and valid keys |
| EnrolmentRows.JoinTokenLives | internal/server/server.go:882-892 | a join token is consumable for ten minutes, the last second included |
| EnrolmentRows.InviteLives | internal/server/server.go:843-844 | an invite for thirty |
| EnrolmentRows.SessionPerInvite | internal/server/server.go:471-489 | where no insert fails, invites open exactly as many sessions as were consumed |
| EnrolmentRows.DeletedIff | internal/server/server.go:966-981 | a node is deleted iff it is offline, and no other row changes |
| EnrolmentRows.JoinCreatesNode | internal/server/server.go:875-896 | a new join token comes with its own node, without key and offline |
| Enrolment.TokensWorkOnce | internal/server/server.go:1048-1057 | in any run each join token and invite is consumed at most once, never after expiry, and a session opens only by one |
| Enrolment.KeyWrittenOnce | internal/server/server.go:1063-1079 | with fresh ids a node id's public key is written at most once in any run |
| Enrolment.JoinsWithinTokens | internal/server/server.go:863-899 | successful joins never exceed consumed tokens, nor these the issued ones |
| Enrolment.JoinedWroteItsKey | internal/server/server.go:1073-1084 | a handler that answers 201 wrote its own key to the node its token was issued for |
| Updater.Host.CopyFile | internal/updater/updater.go:175-194 | a copy touches only its destination, in every intermediate state; it fails at the start, part way, or is whole |
| Updater.Host.BackupDatabase | internal/updater/updater.go:155-173 | finished copies of exactly the existing data files; it fails iff one of its operations does |
| Updater.RestoreLosesIff | internal/updater/updater.go:129-132 | a restoring round destroys the last copy of a file iff its copy fails, the file is not as before, and the backup is removed |
| Updater.RollbackCanLoseTheDatabase | internal/updater/updater.go:129-132 | the case: the copy stops after truncating the database, the removal succeeds |
| Updater.LoopLosesIff | internal/updater/updater.go:129-132 | of a whole loop: a file is lost iff its own round loses it |
| Updater.Host.RestorePart | internal/updater/updater.go:130-131 | one round; while its copy succeeds the file survives in each state |
| Updater.Host.RestoreDatabase | internal/updater/updater.go:129-132 | in any map order every backed-up file gets its content back when no copy fails, and is at hand in each state; else each is what its own round made of it |
| Updater.Host.Rollback | internal/updater/updater.go:125-138 | the original program survives every step; when its own operations work so does the data up to the restart, and the service gets both; whatever fails, exactly the files are lost whose own round loses them; new files stay as they were when the service was stopped |
| Updater.Host.SaveData | internal/updater/updater.go:119-124 | data saved, or program handed back, with the data untouched throughout |
| Updater.Host.SetAside | internal/updater/updater.go:113-124 | program aside and data saved, or everything handed back after a single failure |
| Updater.Host.Activate | internal/updater/updater.go:139-147 | the new program was started once, on its own bytes, and is up; or rolled back |
| Updater.Host.Discard | internal/updater/updater.go:148-151 | only backups disappear, and all of them unless a removal fails |
| Updater.Host.ReplaceManagedService | internal/updater/updater.go:105-153 | crash safety of the program in every state up to activation, and of the data at rest unless a second operation fails; success iff no operation failed, with exactly one start, of the new program; else undone |
| Updater.Host.ReplaceInPlace | internal/updater/updater.go:93-102 | the same without a service manager |
| Updater.Host.Stage | internal/updater/updater.go:71-89 | exactly a body of the announced size and hash is staged, unless an operation fails |
| Updater.Host.Run | internal/updater/updater.go:64-103 | success iff lock, size, hash and every operation are right, with one start of the new program; only the announced program is installed, and in every state since the verdict; before it the original survives; a second updater changes nothing; the lock is given back on every other path |
| Updater.RestoredAll | internal/updater/updater.go:125-132 | rollback's steps together restore the program and all data that existed |
| Updater.RollbackIsExactIff | internal/updater/updater.go:129-132 | the data is exactly the old one iff the failed service created no new data file |
| Base64Url.RoundTrip | internal/grant/grant.go:46-48 | decoding undoes encoding on every byte string (sections 3.5 and 5 of RFC 4648) |
| Base64Url.CanonicalIff | internal/grant/grant.go:57-61 | re-encoding returns the text iff it has no line break and no stray trailing bits |
| Base64Url.PackUnpackIff | internal/grant/grant.go:57-58 | the same for the 6-bit groups |
| Base64Url.TextOfSextetsIff | internal/grant/grant.go:57-58 | the same for the skipped line breaks |
| Base64Url.SymbolsInOrder | internal/grant/grant.go:46 | the alphabet of section 5 of RFC 4648 |
| Base64Url.KnownTexts | internal/grant/grant.go:46-48 | the test vectors of section 10 of RFC 4648, unpadded, and one with both special symbols |
| Base64Url.RespellingsExist | internal/grant/grant.go:57-58 | three texts that decode alike |
| Grants.HasScope | internal/grant/grant.go:71-78 | the search finds exactly the listed scopes |
| Grants.JoinSplit | internal/grant/grant.go:53 | splitting loses nothing |
| Grants.VerifySign | internal/grant/grant.go:31-69 | a signed token verifies to its claims with defaults filled iff version and time allow |
| Grants.VerifyIff | internal/grant/grant.go:51-69 | a token is accepted iff it spells its claims with a valid signature and they are in force, nonce included |
| Grants.OnlyDefaultsFilled | internal/grant/grant.go:32-41 | only a missing version and nonce are filled in, the nonce with the text of the random bytes |
| Grants.NoncesDiffer | internal/grant/grant.go:35-41 | different random bytes give different nonces |
| Grants.AcceptedIsCanonical | internal/grant/grant.go:51-69 | an accepted token is the one canonical spelling of its parts |
| Grants.RespellingRefused | internal/grant/grant.go:59-64 | any other spelling the decoder reads alike is refused |
| Grants.AcceptedHasNoSlack | internal/grant/grant.go:57-61 | an accepted token has no line break and no stray bits |
| Authorisation.StepKeepsInv | internal/server/server.go:608-636 | every signature stems from an issue whose session, test and node were found in order in this run |
| Authorisation.VerifiedWasIssued | internal/grant/grant.go:51-69 | a token that verifies carries the claims of an issued grant |
| Authorisation.AllowedWasGranted | internal/agent/agent.go:311-340 | whoever is let in at time t has a grant stamped at T with T-5 <= t <= T+60, for this node, address and a listed scope, after the server's three checks |
| Authorisation.AllowedIff | internal/agent/agent.go:311-340 | a request is let in iff TLS, origin, token, node, scope, address and the missing Range header are all right |
| Authorisation.RefusedWhy | internal/agent/agent.go:313-338 | 503 iff TLS is not ready, 416 iff only the Range header is in the way |
| Authorisation.NoncesDistinctIff | internal/server/server.go:628-630 | in every run two grants share a nonce iff they drew the same random bytes |
| Authorisation.FlowIsAllowedIff | internal/server/server.go:608-636 | a handler that finds session, test and node hands out a token that meets every premise of AllowedWasGranted and is let in iff the agent's clock is in the window |
| Authorisation.GrantedIsAllowedIff | internal/server/server.go:628-630 | a fresh grant is let in at its agent iff the agent's clock is in the window |
| Score.Interp | internal/score/score.go:9-20 | the index loop computes the interpolation on every real |
| Score.Calculate | internal/score/score.go:22-37 | overwriting the fields in place gives rounded parts and the rounded weighted sum of them |
| Score.RisingMonotone | internal/score/score.go:9-20 | over any rising table interpolation is monotone and bounded by the end ordinates |
| Score.FallingMonotone | internal/score/score.go:9-20 | the same for falling tables |
| Score.ExactAtKnots | internal/score/score.go:9-20 | interpolation is exact at every knot of every table |
| Score.LinearBetweenKnots | internal/score/score.go:14-16 | between two knots interpolation runs on the straight line through them |
| Score.ConstantOutside | internal/score/score.go:10-19 | outside its knots a table keeps its end values |
| Score.LatencyKnots | internal/score/score.go:24 | the knots of the latency table |
| Score.LossKnots | internal/score/score.go:25 | the knots of the loss table |
| Score.JitterKnots | internal/score/score.go:26 | the knots of the jitter table |
| Score.LowDownloadKnots | internal/score/score.go:27 | the first four knots of the download table |
| Score.HighDownloadKnots | internal/score/score.go:27 | the other three |
| Score.UploadKnots | internal/score/score.go:28 | the knots of the upload table |
| Score.RoundedIsNearestTenth | internal/score/score.go:21 | rounding gives the nearest tenth of the clamped value, the upper of two |
| Score.PartsAreNearest | internal/score/score.go:24-34 | each part is its own interpolation to the nearest tenth |
| Score.OverallIsWeighted | internal/score/score.go:35 | the overall score is the weighting of the rounded parts to the nearest tenth |
| Score.RoundedMonotone | internal/score/score.go:21 | rounding is monotone |
| Score.RoundedNear | internal/score/score.go:21 | rounding stays within 0.05 of the clamped value and within 0 and 100 |
| Score.RoundedIdempotent | internal/score/score.go:21 | rounding twice is rounding once |
| Score.ScoreMonotone | internal/score/score.go:22-37 | a worse measurement never raises a part or the overall score, rounding included |
| Score.ScoreAccurate | internal/score/score.go:22-37 | the overall score is within 0.1 of the exact weighted sum |
| Score.OverallAmongParts | internal/score/score.go:30-35 | the overall score lies between its smallest and largest part |
| ClientAddress.Contains | internal/netutil/proxy.go:30-37 | true iff some prefix covers the address |
| ClientAddress.ClientIP | internal/netutil/proxy.go:9-29 | the rightmost untrusted address of the parseable entries followed by the peer; the leftmost when all are trusted |
| ClientAddress.ParsedAt | internal/netutil/proxy.go:17-21 | an entry that parses is kept in its place, another is skipped |
| ClientAddress.ParsedWhole | internal/netutil/proxy.go:15-22 | a header whose entries all parse is taken whole |
| ClientAddress.ClientIsUnique | internal/netutil/proxy.go:23-28 | that description fixes one element |
| ClientAddress.PrependingChangesNothing | internal/netutil/proxy.go:15-28 | entries put in front of the header change nothing once the chain holds an untrusted address |
| ClientAddress.PrependedIsIgnoredIff | internal/netutil/proxy.go:15-28 | a different address put in front is ignored exactly in that case |

## Left out

- Agent ledger: the field `usage.Expires` (written, never read), a ledger without a file path, and file modes. The rename of the quota file is atomic; day strings are day numbers.
- Agent ledger: the step machine stands an epoch number for the identity of usage records; `LedgerObject` proves that right with real references.
- Agent handlers: refusals because of the stream cap (429) are possible for the engine's own requests, since a browser can see the end of a body before the agent's deferred release; no claim is made.
- Engine.MeasurementEnds: counts effective steps; timers, progress samples and `calculateMbps` are not modelled. A body never exceeds its Content-Length.
- Protocol.NeverRefusedForBytes: nobody but the engine uses the grant; the defaults of web/src/api.ts stand in because the server's answer carries only the token. The server's signed caps are those of internal/server/server.go:629.
- OrderStatistics: samples are exact reals; the code's `sort` is modelled by insertion into a sorted sequence.
- `scoreMetrics` in web/src/test-engine.ts (exponentials) and IEEE rounding, infinities and NaN everywhere; scores are exact reals.
- Admission.LifetimeTotal: no query fails in a call that creates a test, since the code would not notice; calls of one session do not overlap; the deletion of tests after 30 days is not modelled.
- Enrolment: a statement either fails without effect or takes effect; join tokens without an assigned node (`createJoin` always assigns one). Fresh random ids never repeat. The HTTP answer, names, endpoints and regions of nodes are left out.
- LimiterBound.WindowBound: one maximum per key and one window, as both callers have it (internal/server/server.go:453, internal/server/server.go:731), and readings in order; the code does not enforce the order, LimiterBound.LaggingBound and LimiterBound.SweepingBound say what holds without it.
- Updater: renames are atomic, `systemctl` is a step that may fail and may rewrite the data files; other programs do not touch the files; paths are absolute by construction. What the service does after the last start is its own affair, so the rollback claims are about the state that start was given.
- Updater.Host.Rollback: data files first created by the failed service are left behind, as in the code.
- Updater.Host.Run: fetching the manifest and the asset, and resolving the executable's path, happen before the model starts.
- Grants: Ed25519 and JSON are function parameters with their usual laws (`SignatureLaw`, `JsonLaw`).
- Authorisation.AllowedWasGranted: the signature is ideal for the token presented. Session, test and node are checked in three separate moments, so they need not hold at one and the same moment. Clocks of server and agent are independent.
- ClientAddress: address parsing and prefix containment are abstract.
- Access-code windows, the control connection, administrator handlers, settings, TLS renewal, traceroute, HTTP headers, cookies, SQL text and the user interface.
