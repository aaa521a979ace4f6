# Verified model of the dispatch control plane and worker

Dispatch runs batch jobs on remote workers. A control plane (Go, over PostgreSQL) owns jobs, attempts,
reservations and leases; workers (Rust) run one container per attempt and act only while they hold a lease.
This project models the parts where the two must agree and proves, for all inputs and all runs, what the system
relies on. Verify it with `dafny verify dfyconfig.toml`.

## How it is organised

**Attempt protocol.** `Schema` holds the tables as maps, `Transactions` says what each committed transaction does
to them (including replays, conflicts and refusals), and `Protocol` defines runs: any sequence of transactions whose
clock readings do not go backwards. `ControlStore` is the imperative form, a `Store` object whose methods update the
tables row by row in loops over rows in any order, each proved equal to its transaction. `Paths` splits every
transaction into elementary row changes (`Changes`), so an invariant is proved once per change (`Ownership`,
`Evolution`, `Timing`, `Lifecycle`, `Capacity`, `SweepFailure`, `Quarantine`, `RenewalReplay`), lifted to runs in
`Runs`, and read off as the system's promises in `RunTheorems`, `ReleaseSafety` and `Rotation`. `Effects` says what
a single transaction means to its caller.

**Lease authority.** `LeaseWindow` is the wire encoding and the worker's clock arithmetic, `AuthorityControl` the
stop-latching controller. `LeaseSafety` runs the control plane, a network that delays, drops and repeats, and the
workers together. `PhaseSafety` and `PhaseWitness` give the exact condition for the phase deadline, `PhaseDeadlines`
adds the worker's own deadlines, and `LeaseFencing` says who may end an attempt whose lease is live.

**Logs.** Capture, segment assembly, spool, binary format, range verification, loss claims and the server's
acceptance of them (`LogCapture`, `LogAssembler`, `LogSpool`, `LogWriter`, `LogFormat`, `LogRange`, `LogTiles`,
`LogSummary`, `LogClaims`, `LogEvidence`, `LogCompletion`), joined from the first chunk to the server's verdict in
`LogPublish`; `LogLimits` reaches the journal's limit by those steps.

**Dataset cache, sweeps, worker journal.** `CacheIndex` and `CacheStore`; `SweepExpansion`; `Journal`, `JournalRuns`
and `JournalDelivery`, the last inside whole runs of the control plane.

## Assumptions

- A committed transaction is one atomic step; a rolled-back one is no step. Row locks and isolation are not modelled.
- Time is an integer number of nanoseconds and is a parameter of every step. Server and worker clocks run at the same
  rate, at an arbitrary offset, and neither runs backwards.
- Identifiers are opaque values with equality and, where SQL sorts by them, an order. New ones are parameters.
- Request hashes are compared as the requests themselves, so two requests never collide. The hash behind retry
  jitter is an arbitrary function.
- The outcome of a file, container or object-store operation is a parameter that may be success or failure.
- Go and Rust integers are unbounded here, with each overflow test written out where the source makes one.

## Promises that hold only under a condition

For each, the exact condition under which it holds is proved, and a concrete input or run on which it fails.

- A range description is accepted exactly when it is right *and* its last number is recorded
  (`LogRange.AcceptedRanges`); a correct description that ends in a gap is refused (`LogRange.TrailingGapRefused`).
- No window for a job reaches past the stored phase deadline in any run if and only if the job's timeouts fit: 25
  seconds or the startup time, whichever is less, is no more than the execution and the finalization time, and 25
  seconds or the execution time no more than the finalization time (`PhaseWitness.PhaseHonouredExactly`). For every
  other specification there is a run that breaks it (`PhaseWitness.PhaseOutlasted`). This is about the window alone.
  The worker also starts a deadline of its own before it reports RUNNING or FINALIZING and waits for a fresh grant
  afterwards; a live window together with either stays inside the stored deadline for every specification
  (`PhaseDeadlines.WithinPhase`). That leaves a container that exits while its RUNNING report is unanswered: the
  worker then holds FINALIZING's deadline and a window from the start while the row may say RUNNING. Such a window
  ends with the execution deadline in every run if and only if 25 seconds or the startup time, whichever is less, is
  no more than the execution time (`PhaseWitness.ExitHonouredExactly`).
- A worker whose log capture failed claims no losses. The server accepts that exactly when nothing it has catalogued
  was lost (`LogCompletion.EmptyClaim`); one registered gap refuses it (`LogCompletion.EmptyClaimRefused`).
- With file operations working and authority kept, the finalization makes a loss claim exactly when the losses make
  up at most 1024 runs and the journal's records, with those still needed by the segments it comes to, number at most
  1024 (`LogPublish.LogPublisher.Finalize`). Two segments can hold too many runs (`LogCompletion.TooManyRuns`), and
  1025 segments without any loss leave no claim (`LogLimits.FullJournal`). A claim that is made is always accepted.
- A downloaded dataset is kept exactly when the cache's 64-bit use counter has two steps left
  (`CacheStore.FetchedExactly`); one step is too few (`CacheStore.LastUseRefused`).

## Model

| member | source | states |
|---|---|---|
| `Runs.RunInv` | internal/store/acquisition.go:81-284 | in every state of every run of committed transactions all invariants hold together: ownership, deadlines, numbering, capacity, fail-fast, the reconciliation latch and replay records |
| `Runs.RunEvolves` | internal/store/completion.go:93-116 | between any two states of a run nothing settled is undone: identities, terminal outcomes, fencing, lapsed deadlines, leases, completion records |
| `Runs.ActionKeepsInv` | internal/store/sessions.go:107-209 | every transaction, from any state that satisfies the invariants, keeps all of them |
| `Runs.InitInv` | internal/store/sessions.go:144-146 | a provisioned, idle control plane satisfies the invariants |
| `RunTheorems.OneOwner` | internal/store/acquisition.go:228-261 | a job is ACTIVE or CANCELLING exactly when it has an active attempt; that attempt is its only one, belongs to its host's current unfenced session and holds an active reservation of exactly the job's resources |
| `RunTheorems.QuarantineIsPendingCleanup` | internal/store/recovery.go:183-192 | in every reachable state quarantined means cleanup pending, and held means active, both ways |
| `RunTheorems.UnreachableErrors` | internal/store/recovery.go:186-192 | no run reaches the missing-reservation error of fencing or of completion, the attempt-counter error, a half-failed recovery or an undecodable renewal replay |
| `RunTheorems.RenewNeverUndecodable` | internal/store/leases.go:134-162 | with consistent replay records, a well-formed renewal never gets the decode error |
| `RunTheorems.AcquireNeverExhausted` | internal/store/acquisition.go:234-236 | the attempt-counter and specification errors of acquisition cannot occur |
| `RunTheorems.RegisterNeverStranded` | internal/store/sessions.go:177-181 | a registration of a provisioned worker never fails inside recovery |
| `RunTheorems.ReapNeverFails` | internal/store/reaper.go:76-78 | fencing an expired attempt always succeeds |
| `RunTheorems.CompleteNeverUnreserved` | internal/store/completion.go:197-203 | a completion that passes its checks is accepted: the reservation it must release is always there |
| `RunTheorems.NoOversubscription` | internal/store/acquisition.go:180-209 | over any run, held plus quarantined capacity stays within the host's ceiling in every resource and in slots, active attempts within project quotas, active children within the sweep limit |
| `RunTheorems.OutcomeIsFinal` | internal/store/completion.go:93-116 | a terminal job never changes again; it has an accepted attempt exactly when it SUCCEEDED, and that attempt is fixed |
| `RunTheorems.CancellationWins` | internal/store/cancellation.go:33-50 | once cancellation is committed, the job can only be CANCELLING or CANCELLED |
| `RunTheorems.LateCompletionIsInert` | internal/store/completion.go:104-116 | after an attempt has ended, no completion of it changes any row |
| `RunTheorems.AcceptedIsLive` | internal/store/leases.go:118-132 | whatever is granted, accepted or replayed for an attempt is decided while it is active, leased and inside its phase, at the transaction's last clock reading |
| `RunTheorems.LapsedStaysLapsed` | internal/store/leases.go:230-258 | once lease or phase deadline has passed, no later renewal, replay, phase report, assignment replay or new completion is accepted |
| `RunTheorems.AcceptedInTime` | internal/store/phases.go:55-81 | every accepted step comes before assignment time plus startup, execution and finalization timeouts |
| `RunTheorems.FailFastIsFinal` | internal/store/sweep_failure.go:28-48 | after one child failed, no sibling of a fail-fast sweep is QUEUED; if running children are cancelled, all siblings are CANCELLING or ended and none ever fails too |
| `RunTheorems.AttemptsNumbered` | internal/store/acquisition.go:246-256 | attempts of a job carry the numbers 1 to its counter, each exactly once; a waiting job has attempts left |
| `RunTheorems.LifecycleIsBounded` | internal/store/completion.go:156-162 | however long the run, a job's state, counter or phase changes at most six times per permitted attempt |
| `RunTheorems.ChangesSpendBudget` | internal/store/recovery.go:173-182 | the number of stage changes plus the remaining budget never exceeds the budget at the start |
| `ReleaseSafety.ReleaseSafe` | internal/store/heartbeat.go:181-198 | quarantined capacity is freed only by a newer, healthy, fully reconciled heartbeat of a different, current session whose inventory is entirely authorised and complete |
| `ReleaseSafety.ReleaseIsAttested` | internal/store/heartbeat.go:160-188 | the release condition implies every clause of that attestation |
| `ReleaseSafety.FencedSessionStaysOut` | internal/store/heartbeat.go:186-197 | a session in which an attempt was fenced is not READY and not reconciled for as long as it is current |
| `ReleaseSafety.NoWorkAfterReap` | internal/store/reaper.go:76-84 | after the reaper fenced one of its attempts, a session is never assigned work again |
| `ReleaseSafety.ReapFences` | internal/store/reaper.go:37-89 | what the reaper fences is quarantined, without a completion, in its own session |
| `ReleaseSafety.OthersKeepQuarantine` | internal/store/recovery.go:148-150 | no transaction other than a heartbeat frees quarantined capacity |
| `Rotation.SelectionExists` | internal/store/acquisition_selection.go:52-55 | the selection query has an answer in every state |
| `Rotation.SelectionUnique` | internal/store/acquisition_selection.go:52-55 | and only one |
| `Rotation.AssignmentApproaches` | internal/store/acquisition_selection.go:52-55 | choosing another project while P could run brings the cursor strictly closer to P, going round the id space |
| `Rotation.CursorMoves` | internal/store/acquisition.go:261-270 | only a new assignment moves the cursor, to the project it served |
| `Rotation.TakesTurns` | internal/store/acquisition.go:261-270 | between two assignments to another project, a project that could run at every assignment is served |
| `Ownership.ChangeKeepsOwned` | internal/store/acquisition.go:228-261 | every row change keeps the cross-table ownership invariant |
| `Evolution.ChangeEvolves` | internal/store/leases.go:252-258 | every row change respects the two-state rules: identities, outcomes, fencing and lapsed deadlines are permanent, leases only grow |
| `Timing.ChangeKeepsDeadlines` | internal/store/phases.go:55-81 | leases reach at most 30 s ahead and phase deadlines at most the timeouts of the phases entered |
| `Timing.ChangeKeepsCompletions` | internal/store/completion.go:188-196 | a completion record always names an attempt that ended the way the record says |
| `Lifecycle.ChangeKeepsNumbers` | internal/store/acquisition.go:246-256 | attempt numbers stay without holes and without repetition |
| `Lifecycle.ChangeSpends` | internal/store/recovery.go:173-182 | whatever changes a job's stage strictly decreases its budget |
| `Lifecycle.BudgetBounded` | internal/store/acquisition.go:234 | the budget lies between zero and six times the permitted attempts |
| `Capacity.ChangeKeepsCapacity` | internal/store/acquisition.go:180-209 | every row change keeps hosts, projects and sweeps within their limits |
| `Capacity.TakeHost` | internal/store/acquisition.go:205-207 | an assignment that fits the worker's claim keeps the host within its authorised ceiling |
| `SweepFailure.ChangeKeepsFailedFast` | internal/store/sweep_failure.go:28-48 | every row change keeps what a failed child implies for its siblings |
| `SweepFailure.EndKeepsFailedFast` | internal/store/recovery.go:199-201 | ending an attempt, with the sweep's reaction, keeps it too, even after earlier failures |
| `Quarantine.ChangeKeepsLatch` | internal/store/heartbeat.go:182-198 | a host with an attempt fenced in its current session stays unreconciled |
| `Quarantine.ChangeQuarantine` | internal/store/heartbeat.go:186-188 | quarantine outlives everything but the fencing of its session, and an ended attempt is never completed later |
| `RenewalReplay.ChangeKeepsReplays` | internal/store/leases.go:225-275 | stored grants stay bounded and never exceed the stored lease |
| `RenewalReplay.ReplayDecodesAlways` | internal/store/leases.go:134-162 | a stored renewal answers a retry of the same members |
| `Paths.ActionPath` | internal/store/sessions.go:77-94 | every enabled transaction is a finite path of elementary row changes |
| `Paths.ActiveIsFenceable` | internal/store/recovery.go:154-192 | an active attempt has every row fencing needs |
| `Paths.ActiveHoldsReservation` | internal/store/completion.go:197-203 | an active attempt has an active reservation and is its job's current one |
| `Paths.CounterErrorUnreachable` | internal/store/acquisition.go:234 | an acquisition that passes its checks assigns |
| `Paths.RecoveryNeverFails` | internal/store/recovery.go:135-139 | the fencing loop of a recovery succeeds for all of the worker's active attempts |
| `ControlStore.Store.RenewLeases` | internal/store/leases.go:166-278 | the batch renewal equals the renewal specification, state and reply, on every path |
| `ControlStore.Store.RequestCancellation` | internal/store/cancellation.go:13-55 | the job is out of the queue or winding down, as the reply says, and no other row changes |
| `ControlStore.Store.ReportPhaseTo` | internal/store/phases.go:85-176 | an accepted report is on file and a new one moves its attempt, as the reply says; any other changes nothing |
| `ControlStore.Store.CompleteAttempt` | internal/store/completion.go:60-231 | an accepted completion is on file with its attempt ended, as the reply says; a refused or repeated one changes nothing |
| `ControlStore.Store.Grant` | internal/store/leases.go:252-275 | the member loop updates exactly the accepted members' leases and stores exactly the grants it returns |
| `ControlStore.Store.Regrant` | internal/store/leases.go:230-251 | a replay changes nothing and returns the stricter of the old and the current bounds |
| `ControlStore.Store.FenceLostAttempt` | internal/store/recovery.go:154-203 | row-by-row fencing equals its specification, and an error leaves the tables untouched |
| `ControlStore.Store.FenceAttempts` | internal/store/recovery.go:135-139 | the loop fences in lock order, each on the rows the previous one left, all or nothing |
| `ControlStore.Store.RecoverSession` | internal/store/recovery.go:101-152 | takeover, inactivity and live-lease rules, fencing and session fencing |
| `ControlStore.Store.RegisterSession` | internal/store/sessions.go:107-209 | reuse, first session, recovery, and every error |
| `ControlStore.Store.ReapOne` | internal/store/reaper.go:37-89 | recheck under locks, fence, take the host out of service |
| `ControlStore.Store.ReapExpiredAttempts` | internal/store/reaper.go:17-35 | at most `limit` inspections; the count is the number of attempts fenced; it stops early only when the query finds nothing |
| `ControlStore.Store.AcquireWork` | internal/store/acquisition.go:81-284 | replay, refusal with its reason, or the four row changes of an assignment |
| `ControlStore.Store.FindReason` | internal/store/acquisition.go:131-230 | the reason reported is the one the ordered checks give |
| `ControlStore.Store.RecheckReason` | internal/store/acquisition.go:180-230 | successive overrides give the precedence of the specification |
| `ControlStore.Store.SumLoads` | internal/store/acquisition.go:186-189 | the scan computes the sum whatever order rows come in |
| `ControlStore.Store.RecordHeartbeat` | internal/store/heartbeat.go:113-250 | stop list, releases and host state do not depend on map iteration order |
| `ControlStore.Store.ScanInventory` | internal/store/heartbeat.go:160-168 | the inventory pass finds exactly the entries without authority, in any order |
| `ControlStore.Store.ScanAttempts` | internal/store/heartbeat.go:169-180 | the attempt pass finds exactly the active attempts without authority and the missing ones, in any order |
| `ControlStore.Store.ReleaseQuarantined` | internal/store/heartbeat.go:181-198 | the release pass frees exactly what may be released and reports the rest, in any order |
| `Effects.CancellationMeans` | internal/store/cancellation.go:13-55 | a cancelled job leaves the queue for good, no other row changes, and asking twice is asking once |
| `Effects.FailFastMeans` | internal/store/sweep_failure.go:28-48 | after a failure no sibling waits, with cancelRunning none stays ACTIVE, no other job changes, and the reaction happens once |
| `Effects.LossMeans` | internal/store/recovery.go:173-182 | a lost attempt's job is cancelled exactly when that was asked for, retried exactly within its policy and never after a timeout, after a bounded delay |
| `Effects.SessionMeans` | internal/store/sessions.go:185-205 | a new session is current and gets no work before its first reconciled heartbeat; other hosts and all attempts stay |
| `Effects.PhaseReportMeans` | internal/store/phases.go:85-176 | only an accepted report changes anything: its attempt's row and its own record |
| `Effects.PhaseReportRetried` | internal/store/phases.go:137-146 | a repeated report gets the same reply and changes nothing |
| `Effects.CompletionMeans` | internal/store/completion.go:60-231 | an accepted completion is on file, its attempt has ended in the state replied and is nobody's current one, its capacity is released or quarantined; anything else changes nothing |
| `Effects.CompletionRetried` | internal/store/completion.go:93-103 | a repeated completion gets the same reply, whenever it comes, and changes nothing |
| `Effects.EndingMeans` | internal/store/completion.go:190-211 | an ending reaches the attempt, its reservation and its job together and no other attempt |
| `Effects.AssignmentMeans` | internal/store/acquisition.go:246-270 | an assignment is live exactly until its lease or startup time ends, its host holds exactly the job's load more, and a repeated request finds the same assignment |
| `Decisions.RetryDelay` | internal/store/recovery.go:223-234 | the delay lies in the upper half of the doubled, capped backoff, at least half a second and at most the cap |
| `Decisions.ComputeRetryDelay` | internal/store/recovery.go:223-234 | the doubling loop computes the closed form for every attempt number |
| `LeaseWindow.LeaseResponse` | internal/workerapi/leases.go:41-77 | all grants in order, or an error exactly when one is out of bounds or the batch size is wrong |
| `LeaseWindow.FloorsDown` | internal/workerapi/leases.go:55-60 | flooring gives away less than a millisecond and never invents time |
| `LeaseWindow.BoundedGrantsEncode` | internal/workerapi/leases.go:55-71 | grants of the store always encode; an acceptance is refused on the wire exactly when less than a millisecond is left |
| `LeaseWindow.WindowMeaning` | rust/worker/src/lease.rs:90-127 | for every input: a window opens exactly when the grant is in bounds and time is left after the margin, and is live exactly from send to deadline however late the reply |
| `LeaseWindow.DelayNeverHelps` | rust/worker/src/lease.rs:103-112 | a later reply to the same request never gives a longer window |
| `LeaseWindow.TerminationGrace` | rust/worker/src/supervisor.rs:327-337 | grace is at most the request and at most 300 s |
| `LeaseWindow.GraceFits` | rust/worker/src/supervisor.rs:327-346 | grace plus the daemon call and the forced path end before local authority does, and no longer permitted grace would |
| `AuthorityControl.AuthorityController.Update` | rust/worker/src/supervisor.rs:170-194 | another identity changes nothing; stop is kept; a lapsed or dead grant stops |
| `AuthorityControl.AuthorityController.Apply` | rust/worker/src/supervisor.rs:147-168 | renewed, expired and rejected outcomes and the invalid one |
| `AuthorityControl.AuthorityController.Halt` | rust/worker/src/supervisor.rs:143-145 | a stop always stops and never rewrites an earlier reason |
| `AuthorityControl.OpenChannel` | rust/worker/src/supervisor.rs:76-111 | a channel opens exactly for a generation in range and a live window |
| `AuthorityControl.StopIsFinal` | rust/worker/src/supervisor.rs:180-183 | after any stop the state never changes |
| `AuthorityControl.ForeignUpdatesIgnored` | rust/worker/src/supervisor.rs:175-177 | any history has the same effect as its updates in the attempt's own name alone |
| `AuthorityControl.LiveOnlyOnPrefix` | rust/worker/src/supervisor.rs:143-204 | over every sequence of updates by any number of clones, once not live the state is never live again |
| `LeaseSafety.LeaseExclusion` | rust/worker/src/lease.rs:90-127 | for every interleaving of grants, renewals, replays, losses and delays: while a window is live the stored lease has more than five seconds left, and in the phase of the grant the stored phase deadline has not come |
| `LeaseSafety.SystemSafe` | internal/store/leases.go:221-258 | the inductive invariant of server, network and workers together |
| `LeaseSafety.MoveKeepsSafe` | internal/workerapi/acquisition.go:78-87 | every server transaction, send, reply, delivery and stop keeps it |
| `LeaseSafety.RenewHonoured` | internal/store/leases.go:225-262 | every accepted grant, fresh or replayed, is backed by the rows the transaction leaves |
| `PhaseSafety.PhaseExclusion` | rust/worker/src/lease.rs:103-112 | if the job's timeouts fit, no live window in any run reaches past the stored phase deadline, whatever phase it was granted in |
| `PhaseSafety.SystemPhaseSafe` | internal/store/phases.go:55-81 | in every system state each reply and window reaches no further ahead than the timeout of the phase it was granted in |
| `PhaseWitness.PhaseHonouredExactly` | internal/store/phases.go:72-77 | for every valid specification: in all runs no window reaches past the stored phase deadline, if and only if no later phase is shorter than a window of an earlier one can be |
| `PhaseWitness.PhaseOutlasted` | internal/store/phases.go:72-77 | for every other specification a run of the whole system in which a live window outlasts the deadline |
| `PhaseWitness.ExitHonouredExactly` | rust/worker/src/launch/run.rs:208-215 | for every valid specification: a window from the start never reaches past the execution deadline in any run, if and only if the execution time is at least 25 s or the startup time |
| `PhaseDeadlines.WithinPhase` | rust/worker/src/lease.rs:64-87 | for every specification and run: with local phase deadlines started before the report is served, a live window stays inside the stored phase deadline while the attempt is starting, is in the phase of the grant, or has its phase's local deadline ahead |
| `PhaseDeadlines.RunBegun` | rust/worker/src/launch/run.rs:198-234 | in every run the local deadline of the phase an attempt is in ends no later than the stored one |
| `LeaseFencing.FencingNeedsExpiry` | internal/store/recovery.go:121-134 | before its lease ends an attempt is fenced only because its phase is over or an operator approved the takeover |
| `LeaseFencing.LiveWindowNotFenced` | internal/store/recovery.go:121-134 | lease-based fencing never hits a live worker window |
| `LeaseFencing.LiveWindowNeedsApproval` | internal/store/recovery.go:121-134 | in the phase of the grant, or with fitting timeouts, a live window is fenced only by an approved takeover |
| `LogFormat.Decode` | internal/logformat/logformat.go:32-68 | accepts exactly the encodings of well-formed segments and returns the segment encoded |
| `LogFormat.DecodeRecords` | internal/logformat/logformat.go:49-67 | the record loop accepts exactly the bodies some record list encodes to |
| `LogFormat.UnbigBig` | rust/worker/src/log_format.rs:133-137 | big-endian numbers read back |
| `LogFormat.BigUnbig` | internal/logformat/logformat.go:53-56 | and re-encode to the same bytes |
| `LogFormat.RecordAtEncoded` | internal/logformat/logformat.go:53-63 | an encoded record reads back as itself |
| `LogFormat.EncodedRecordAt` | internal/logformat/logformat.go:53-63 | a record read re-encodes to the bytes it came from |
| `LogRange.VerifyLogRange` | internal/client/logs.go:163-179 | accepts exactly when the records lie in the range, the gaps are their maximal missing runs and the range ends with a record |
| `LogRange.AcceptedRanges` | internal/client/logs.go:163-179 | the loop's verdict is that declarative condition |
| `LogRange.TrailingGapRefused` | internal/client/logs.go:175-177 | a correct description with a gap at its end is refused |
| `LogRange.HolesAreMissingRuns` | rust/worker/src/log_format.rs:127-132 | the gaps a writer records are the maximal runs of missing numbers |
| `LogRange.SeparatedUnique` | internal/client/logs.go:175 | a gap list of separate runs is determined by the numbers in it |
| `LogWriter.NewWriter` | rust/worker/src/log_format.rs:72-98 | a writer exists exactly for a canonical non-nil attempt and a first number in range |
| `LogWriter.LogSegmentWriter.Append` | rust/worker/src/log_format.rs:100-142 | the exact error for each input in order, nothing changed on error, one more record otherwise |
| `LogWriter.LogSegmentWriter.Finish` | rust/worker/src/log_format.rs:144-154 | a sealed segment exactly when there is a record, holding exactly the appended records |
| `LogWriter.ReadBack` | internal/client/logs.go:153-160 | decoding a finished segment yields exactly the appended records and its metadata passes the range check |
| `LogSpool.LogSpool.Store` | rust/worker/src/log_spool.rs:136-212 | stored, saturated or failed, with exact byte and entry accounting |
| `LogSpool.LogSpool.Remove` | rust/worker/src/log_spool.rs:231-241 | an entry is removed exactly when it is on file and the disk agrees |
| `LogTiles.Normalized` | internal/store/log_segments.go:36-55 | accepts exactly ranges whose gaps are inside, ordered, disjoint and not everything |
| `LogTiles.RecordRemains` | internal/store/log_segments.go:51-55 | the test on the sum of the gaps says that some number of the range lies in no gap |
| `LogTiles.TileCovers` | rust/worker/src/log_format.rs:127-142 | every number of a tile is exactly one of record and gap |
| `LogTiles.TilesPartition` | rust/worker/src/log_assembler.rs:175-179 | every number up to the last stored one lies in exactly one tile |
| `LogTiles.TileRegisters` | internal/store/log_segments.go:140-146 | every tile passes the range check, and each in turn the contiguity check |
| `LogAssembler.LogAssembler.Ingest` | rust/worker/src/log_assembler.rs:103-129 | a well-formed chunk that fits a segment is always taken while the spool works: the retry after a full or gap-limited segment succeeds; the records seen grow by exactly the chunks taken |
| `LogAssembler.LogAssembler.Retry` | rust/worker/src/log_assembler.rs:117-124 | the second try, in a fresh segment, succeeds |
| `LogAssembler.LogAssembler.FlushStream` | rust/worker/src/log_assembler.rs:181-217 | the open segment becomes the next tile or, with a full spool, is left to the next gap; the conflict error cannot occur |
| `LogAssembler.LogAssembler.AcknowledgeFront` | rust/worker/src/log_assembler.rs:160-170 | the head of the queue is the earliest unacknowledged tile of its stream |
| `LogAssembler.LogAssembler.FlushAll` | rust/worker/src/log_assembler.rs:144-149 | while the spool works both streams are sealed; an error on the first leaves the second untouched |
| `LogAssembler.LogAssembler.StoredTiles` | rust/worker/src/log_assembler.rs:77-84 | at any time the stored segments tile the stream from 1 and hold only records that were ingested |
| `LogCapture.PiecesConcat` | rust/worker/src/log_capture.rs:69-71 | cutting a frame loses no byte |
| `LogCapture.LogQueue.PushFrame` | rust/worker/src/log_capture.rs:69-98 | numbers are handed out to every piece, exactly the pieces that found room get through under their own numbers, and it fails exactly when the clock, the receiver or the numbers give out |
| `LogClaims.NormalizeClaims` | internal/store/completion_contract.go:91-107 | accepts exactly at most 1024 valid, pairwise disjoint claims, in whatever order they arrive, and none for a complete log |
| `LogClaims.CoversGap` | internal/store/completion.go:381-397 | true exactly when every number of the gap is claimed |
| `LogSummary.Merge` | rust/worker/src/log_summary.rs:93-112 | the merge loop succeeds exactly when all claims are valid and at most 1024 runs remain |
| `LogSummary.MergedApart` | rust/worker/src/log_summary.rs:93-112 | merged claims are separate maximal runs |
| `LogSummary.MergedClaims` | rust/worker/src/log_summary.rs:93-112 | and cover exactly the same numbers |
| `LogSummary.RunsUnique` | rust/worker/src/log_summary.rs:93-112 | separate runs are determined by the numbers in them |
| `LogSummary.RunsDecide` | rust/worker/src/log_summary.rs:108-112 | so whether there are too many is a property of the lost numbers |
| `LogSummary.Collect` | rust/worker/src/log_summary.rs:56-91 | accepts exactly an in-order registered prefix per stream, and collects its gaps and the tail |
| `LogSummary.Summarize` | rust/worker/src/log_summary.rs:51-120 | made exactly when the ranges are an in-order registered prefix and the lost numbers make up at most 1024 runs; the claim then is those runs |
| `LogEvidence.SummaryNeverInvalid` | rust/worker/src/log_summary.rs:66-76 | whatever was dropped, the worker's own journal is never summarised as invalid |
| `LogEvidence.EvidenceClaims` | rust/worker/src/log_summary.rs:77-91 | the claim is exactly the gaps of confirmed segments and everything after them |
| `LogEvidence.CatalogueCovered` | internal/store/completion.go:320-328 | every gap the server catalogued is covered, also in segments whose registration reply was lost |
| `LogEvidence.SummaryNormalizes` | internal/store/completion_contract.go:94-107 | separate runs always pass normalization |
| `LogCompletion.AcceptLogs` | internal/store/completion.go:309-350 | the server's check accepts exactly claims that are few, valid, disjoint and cover every catalogued gap of both streams, and a complete one only when no declared upload waits for its row |
| `LogCompletion.StreamCovered` | internal/store/completion.go:326-331 | the loop over a stream's rows finds an uncovered gap exactly when there is one |
| `LogCompletion.Conclude` | rust/worker/src/finalization.rs:195-201 | from journal to verdict: never invalid, made exactly when the losses make up at most 1024 runs, claiming exactly what is lost, always accepted then; complete exactly when all is confirmed and nothing lost, and then every captured number has its record in the catalogue |
| `LogCompletion.FewLostIsFewRuns` | rust/worker/src/log_summary.rs:51-120 | whether the journal's evidence makes up few runs depends only on what was lost |
| `LogCompletion.EmptyClaim` | rust/worker/src/finalization.rs:76-92 | the empty claim after a failed capture is accepted exactly when nothing catalogued of either stream was lost |
| `LogCompletion.EmptyClaimRefused` | rust/worker/src/finalization.rs:78-83 | one lost record in one registered segment is enough to refuse it |
| `LogCompletion.TooManyRuns` | rust/worker/src/log_summary.rs:106-112 | a consistent journal of two segments whose summary is refused for its size |
| `LogPublish.LogPublisher.Receive` | rust/worker/src/log_live.rs:102-105 | while the spool works the next chunk is always taken, and what the assembler has seen stays exactly what was handed over |
| `LogPublish.LogPublisher.Prepare` | rust/worker/src/journal/logs.rs:84-166 | the queue's head gets its one record, never in conflict with an earlier one; refused exactly when it needs a new one and the journal holds 1024 or takes no more |
| `LogPublish.Register` | internal/store/log_segments.go:100-146 | a repeated request id is accepted exactly when it repeats its row, a new one exactly when well formed and next in line; only the latter adds a row |
| `LogPublish.LogPublisher.Enrol` | internal/store/log_segments.go:140-146 | the server never refuses the next segment, and catalogues it once |
| `LogPublish.LogPublisher.Deliver` | rust/worker/src/log_delivery.rs:49-109 | a confirmed segment stays confirmed; without an answer the journal is unchanged, and the server is ahead by at most an upload and a row |
| `LogPublish.LogPublisher.Publish` | rust/worker/src/log_publish.rs:25-72 | a round never meets a journal conflict or a refusal by the server; the journal refuses it, and it confirms and acknowledges the head, exactly under the stated conditions |
| `LogPublish.LogPublisher.Drain` | rust/worker/src/finalization.rs:150-192 | the head's record, up to three deliveries and its acknowledgement, with the exact outcome while everything works |
| `LogPublish.LogPublisher.DrainQueue` | rust/worker/src/finalization.rs:131-192 | the draining loop ends early exactly when the journal has no place for a head it comes to |
| `LogPublish.LogPublisher.Finalize` | rust/worker/src/finalization.rs:131-201 | while files and authority hold, it stops without a claim exactly when the records plus the unrecorded heads it comes to exceed 1024; otherwise the claim is made exactly when the losses make up at most 1024 runs, is exactly what is lost, and is accepted |
| `LogPublish.LogPublisher.Finish` | rust/worker/src/finalization.rs:195-201 | once the queue is drained: the claim is made exactly when the losses make up at most 1024 runs, is exactly what is lost, and is accepted; a complete one leaves no captured number without its catalogued record |
| `LogPublish.LogPublisher.CatalogueIsCaptured` | rust/worker/src/log_live.rs:102-105 | every record of a catalogued segment is a captured chunk with that number, time and payload |
| `LogLimits.FullJournal` | rust/worker/src/journal/logs.rs:115 | 1025 one-byte segments by the pipeline's own steps: nothing is lost, 1024 are registered, and the finalization stops without a claim |
| `CacheIndex.NewIndex` | rust/worker/src/dataset_cache.rs:36-47 | an empty index exists exactly when the low mark is positive and below the high mark |
| `CacheIndex.CacheIndex.Insert` | rust/worker/src/dataset_cache.rs:57-77 | exact error or new state; used bytes stay the sum of entries below the high mark |
| `CacheIndex.CacheIndex.Pin` | rust/worker/src/dataset_cache.rs:79-87 | exact error or new state |
| `CacheIndex.CacheIndex.Unpin` | rust/worker/src/dataset_cache.rs:89-96 | exact error or new state |
| `CacheIndex.CacheIndex.Remove` | rust/worker/src/dataset_cache.rs:134-144 | a pinned entry is never removed |
| `CacheIndex.CacheIndex.PlanEviction` | rust/worker/src/dataset_cache.rs:98-132 | the plan is the shortest least-recently-used prefix of the unpinned entries reaching the low mark, or all of them; refused exactly when even all would not do |
| `CacheIndex.CacheIndex.Candidates` | rust/worker/src/dataset_cache.rs:109-116 | all unpinned entries in order of last use |
| `CacheIndex.LruUnique` | rust/worker/src/dataset_cache.rs:114-116 | two such orders agree as far as both go |
| `CacheIndex.LruOrderUnique` | rust/worker/src/dataset_cache.rs:114-116 | so there is one order for an index |
| `CacheIndex.PlanUnique` | rust/worker/src/dataset_cache.rs:98-132 | and one plan for an index and a size |
| `CacheStore.PreparationIsSafe` | rust/worker/src/dataset_cache_store.rs:100-198 | with pins and whole calls dropped anywhere: used bytes stay below the high mark, removing victims never meets a pin, no pinned tree is deleted, a hit never misses its tree, and a download is kept exactly while the use counter has two steps left |
| `CacheStore.EvictionProceeds` | rust/worker/src/dataset_cache_store.rs:148-159 | removing the first victim succeeds and leaves a sound plan for the rest |
| `CacheStore.UnpinKeepsPlan` | rust/worker/src/dataset_cache_store.rs:55-62 | dropping a pin never touches a planned victim |
| `CacheStore.FetchedExactly` | rust/worker/src/dataset_cache_store.rs:175-193 | after the download the dataset is in the cache and pinned exactly when the use counter has two steps left, and otherwise nothing is kept |
| `CacheStore.LastUseRefused` | rust/worker/src/dataset_cache_store.rs:182-193 | a run to one step before the counter's end: the insert is admitted, the pin is not, and the dataset is thrown away |
| `SweepExpansion.CheckMatrix` | internal/spec/sweep.go:78-96 | accepts exactly valid parameters with at most 1000 combinations, for every map iteration order |
| `SweepExpansion.DivideFirst` | internal/spec/sweep.go:83 | dividing before multiplying is the same test as multiplying |
| `SweepExpansion.ProductAnyOrder` | internal/spec/sweep.go:80-95 | the number of combinations does not depend on the order of parameters |
| `SweepExpansion.Expand` | internal/spec/sweep.go:59-128 | accepts exactly when policy, matrix and total size do, and child i is built from the digits of i over the sorted parameters |
| `SweepExpansion.ExpansionUnique` | internal/spec/sweep.go:94-96 | the specification alone determines the children and their indices, whatever order the map is visited in |
| `SweepExpansion.InOrderUnique` | internal/spec/sweep.go:94-96 | there is only one sorted list of given keys |
| `SweepExpansion.EveryCombination` | internal/spec/sweep.go:104-117 | the children are the Cartesian product: each combination of values is the child at exactly one index and has exactly those values |
| `SweepExpansion.BuildChild` | internal/spec/sweep.go:112-117 | peeling digits off the index sets each parameter to its chosen value |
| `SweepExpansion.ChildMeaning` | internal/spec/sweep.go:109-117 | a child has its chosen value for every parameter and the template's environment otherwise |
| `SweepExpansion.ChildrenInOrder` | internal/spec/sweep.go:104-117 | children are numbered in lexicographic order of their choices |
| `SweepExpansion.EveryChoiceOnce` | internal/spec/sweep.go:104-117 | every choice of one value per parameter is exactly one child |
| `Journal.Journal.RecordAssignment` | rust/worker/src/journal.rs:211-243 | an assignment is stored once; the same one again changes nothing, and any other for the same attempt is a conflict |
| `Journal.Journal.BindContainer` | rust/worker/src/journal.rs:245-265 | afterwards the container is this one, another one is a conflict, and nothing else on file is revised |
| `Journal.Journal.RecordExit` | rust/worker/src/journal.rs:267-293 | afterwards a bound container has this exit, another one is a conflict, and nothing else on file is revised |
| `Journal.Journal.PreparePhase` | rust/worker/src/journal.rs:295-344 | the report returned is the only one of its phase; a saved one is replayed verbatim and changes nothing |
| `Journal.Journal.PersistCompletion` | rust/worker/src/journal.rs:346-373 | the completion on file is this one, new only with the exit observed; another one is a conflict |
| `Journal.Journal.SupersedeRejectedCompletion` | rust/worker/src/journal.rs:377-410 | only a completion answered with a stop gives way, to a stopped cancellation, once, and stays on file as refused |
| `Journal.Journal.RecordCompletionResponse` | rust/worker/src/journal.rs:418-453 | the reply on file is a valid one to this completion; any reply but a stop is final |
| `JournalRuns.OperationWritesOnce` | rust/worker/src/journal.rs:245-452 | every operation keeps the record valid and revises nothing |
| `JournalRuns.EvidenceIsWrittenOnce` | rust/worker/src/journal.rs:516-573 | over every run container, exit and phase reports never change, a completion closes the phases, any reply but a stop is final, and a completion is replaced at most once, after STOP_REQUESTED, by a stopped cancellation |
| `JournalRuns.ReportsNeverConflict` | internal/store/phases.go:55-81 | sending a report, for the first time or again, once the earlier ones are on file is never a conflict |
| `JournalDelivery.DeliveriesNeverConflict` | internal/store/phases.go:128-146 | in every run of the control plane, a record's reports, sent in order and repeated at will, among any transactions that are not reports of the same attempt or event, never meet a conflict |
| `JournalDelivery.GrowingJournalNeverConflicts` | rust/worker/src/journal.rs:295-344 | nor do the reports on file at any moment of a run of journal operations, while the journal grows |
| `JournalDelivery.OthersKeep` | internal/store/phases.go:157-165 | only a phase report changes the phase or container of an attempt that stays active, or the reports on file, and a new attempt starts out assigned |

## Left out

- SQL text, locks, isolation levels, migrations and retries of serialization failures: transactions are atomic steps.
- Events, audit rows, metrics, queue diagnostics and the sampling that explains why a job waits.
- HTTP, gRPC, TLS, credentials, role checks, JSON, YAML, protobuf and SHA-256: values arrive decoded.
- Submission idempotency keys, resubmission of a finished job and dataset bindings: a submission inserts new jobs.
- Uploads, multipart transfers, artifact manifests and their verification: completion takes the verdict as a parameter.
- Containers, the Docker daemon, image pulls, object storage and the file system: outcomes are parameters.
- Listing, pagination and read-only queries: they change no state.
- The timed flush of open log segments and the refresh barrier around a supervised container.
- The journal's upload and log sub-records and its size limit on disk; the log part is modelled as ranges in `LogEvidence`.
- Validation of job templates and metadata when a sweep is expanded: a child's admission is a parameter.
- Character encoding: matrix names and values are sequences of characters, and a character counts as one byte.
- SweepExpansion.Expand: does not model the API version, kind, metadata and project checks that come first, because they are independent of the matrix.
- LogAssembler.LogAssembler.Ingest: promises success only for payloads that fit a segment, because the capture queue's 64 KiB pieces always do.
- LogPublish.LogPublisher.Deliver: takes upload, finalization and registration as one outcome (not sent, declared, not answered, answered), because only declarations and registrations reach the rows a completion is checked against.
- LogPublish.LogPublisher.Finalize: takes the lapse of authority or of the finalization deadline as a failed round that is final, because it ends the loop at the next wait whatever that wait is for.
- The one-shot snapshot of container logs when live capture was never started: it numbers and ingests chunks as live capture does with room for all.
- JournalDelivery.DeliveriesNeverConflict: takes from the worker's delivery loop that a report is sent only when every earlier one is on file, because that loop is not modelled.
- LogAssembler.LogAssembler.constructor: takes a canonical, non-nil attempt id, because workspaces are named after validated assignments; the source would fail at the first segment instead.
