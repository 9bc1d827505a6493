# Mailstrix, modelled and proved in Dafny

Mailstrix scans mail attachments. This project models the parts of it that are hardest to get right and proves what
they promise, for every input, every run and every interleaving:

* **The CAPE job protocol** (`internal/cape`). A crash-prone store sends each attachment to a remote sandbox and must
  never send it twice. The store, its scheduler and its environment are one transition system (`CapeProtocol`); a step
  is one atomic effect, so the states between steps are the states a crash can leave. The environment may crash at any
  point, move the clock backwards, and report an error from a commit that was in fact applied. `CapeInvariant` and
  `CapePreservation` hold the inductive invariant; `CapeSafety`, `CapeHistory`, `CapeResults`, `CapeDeletion`,
  `CapeRecovery` and `CapeLive` draw the conclusions, `CapeProgress` shows that work is admitted and gets done, and
  `CapeTransitions` says when each change of one row is made; `CapeStore` and `CapeScheduler` are the store and the
  scheduler as classes whose methods are proved to make exactly those steps. `CapeCallback` is the replay protection
  of signed callbacks, `CapeAcceptance` which of them are accepted.
* **Formula folding** (`internal/extract/biff_ptg.go`). A stack machine turns reverse-Polish formula tokens into text.
  `BiffCorrect` is its compiler-correctness theorem; `BiffFold` is the loop that runs it, and `BiffReadable` says what
  can be read off its text.
* **Decoding** (`internal/extract/decode.go`). The breadth-first walk over encoded layers and its markers
  (`DecodeWalk`, `DecodeMarkers`, `DecodeRun`) and that it finds exactly what can be reached (`WalkComplete`); the
  scalar scanners that replace regular expressions (`EncodedRuns`, `DecimalRun`) and the languages of those
  expressions (`RegexLanguage`, `DecimalLanguage`); the ten decoders' searches and what they take (`DecodeChain`,
  `WholeRuns`, `FoldLiterals`); the cheap gate in front of them (`EncodingGate`), exactly what it costs (`GateStrict`)
  and that it costs the walk nothing else (`WalkGate`).
* **Workbook decryption** (`internal/extract/defaultpw.go`): `BiffCipher`, `BiffDecrypt`.
* **Bounded work**: the pool of uncancellable decoders (`WorkerPool`, `PoolProgress`), the password budget
  (`ArchiveBudget`), the two-pass RAR walk (`RarWalk`) and the milter's listeners (`MilterDrain`, `MilterProgress`).
* **The native rule graph** (`docker`): frames and traces (`RuleFrames`, `RuleTrace`, `RuleRoundTrip`), their writer
  and reader (`RuleCapture`), a whole observed compilation (`RuleCompile`), the marker closure (`RuleGraph`,
  `RuleClosure`) and the narrowing of a bundle to whole namespaces (`RuleProjection`, `RuleBinding`).

## What the proofs found

* `internal/cape/store.go:163` says that a live attempt's entry lives until its outcome is recorded. It can outlive
  it: `RecordSubmission` deletes the entry only when the commit reports success
  (`internal/cape/store_state.go:155-158`), and once the outcome is durable the scheduler drops its packet without
  deleting it (`internal/cape/scheduler.go:384-387`). `CapeLive.LiveTracksUnlessLeaked` gives the exact condition,
  `CapeLive.LeakIsReachable` a run, and `CapeLive.LeakStarvesTenant` the price: once as many entries of a tenant have
  leaked as it may have attempts at a time, one by default, it submits nothing more until the process restarts.
* A callback delivery reads the clock twice, once for the signing window (`internal/cape/callback.go:266`) and once
  for the lifetime of its event row. Replay protection holds for all clock behaviour between deliveries, and exactly
  as long as the two readings inside one delivery differ by less than 55 seconds in total
  (`CapeCallback.ReplaySafeExactly`).
* `normalizePtg` (`internal/extract/biff_ptg.go:593-613`) misses five class variants that the file format has: the
  array-class 3-D reference, 3-D area and external name, and both variants of the memory area. The fold stops there
  and loses the call around the operand (`BiffCorrect.UnknownSpellings`, `BiffCorrect.UnknownSpellingHidesCall`).
  `BiffCorrect.FoldExactly` gives the text that comes out for every formula, and so exactly when it is the right one.
* The gate before the decoders is documented as strict: it is to pass everything that a decoder or the re-decode test
  would accept (`internal/extract/decode.go:1193-1203`). It looks only at the first mebibyte, while eight decoders
  search the whole buffer. For the buffers of a given length it is strict exactly when the length is within that
  window (`GateStrict.StrictExactly`, with a failing buffer for every greater length). In a buffer that it turns away,
  a decoder has something to convert exactly when a run that it takes reaches behind the window
  (`GateStrict.MissedExactly`). A match there is not enough: 24 zeros are left to the hex decoder, for which they are
  too few (`GateStrict.MatchBehindIsNotEnough`).
* Each folding is documented to need its literal (`internal/extract/decode.go:260-261`). That holds but for
  `StrReverse` with a long s (`FoldLiterals.FoldNeedsLiteral`, `FoldLiterals.StrReverseSpelling`,
  `GateStrict.LongSIsSkipped`).
* Raising the decode depth is documented only to add (`internal/extract/decode.go:816-821`). It does for decoded
  streams (`DecodeWalk.StreamsGrowWithDepth`), but a deeper walk can take the last place of a depth marker
  (`DecodeMarkers.MarkerIsLost`); `DecodeMarkers.MarkerKeptExactly` says exactly when a source keeps its marker.
* The gate before each child of the walk never decides anything, because the re-decode test that queued the child
  asked it already (`WalkGate.ChildGateIsIdle`).
* A call of more than 64 arguments is folded with its last 64 only, and the others stay behind as operands of what is
  around it (`BiffCorrect.LongCallFolds`).
* The re-decode test is documented to have no match when the gate is closed (`internal/extract/decode.go:1287-1291`).
  Its case-insensitive `StrReverse` also matches a long s, which the gate's ASCII markers do not know. That is all
  that the gate hides (`GateStrict.GateHidesExactly`, `GateStrict.LongSIsHidden`), and nothing is hidden in an ASCII
  buffer (`GateStrict.AsciiHidesNothing`).
* The 24-hour limit on the reuse of a completed job (`internal/cape/store_ingress.go:224`) never decides anything:
  every completed job still holds its barrier (`CapeRows.ReusableIsBlocking`).
* The abandoned gauge of the decoder pool can be negative for a moment, between a watchdog's swap and its increment
  (`WorkerPool.GaugeDips` is a run). `WorkerPool.GaugeIsExact` gives its value in every run, and so exactly when it is
  negative.

## How to read it

Times are nanoseconds; an unset Go time is `None`. A database transaction is one step, its commit one of `Committed`,
`AppliedThenFailed` and `NotApplied`. `Apply` leaves the state alone when a step's guard fails, so a run is any
sequence of steps. Files are unlinked and renamed atomically, and IDs are never drawn twice. The CAPE client's promise
that `NoBytesSent` means that the transport was never invoked is built into the step in which a request returns. Token
buckets count in reals. Go strings that hold bytes are Dafny strings with one character a byte. UTF-16 decoding, the
RC4 keystream, the regular expression engine, a rule's condition and the answers of filesystem and network are
parameters: the theorems hold for all of them.

## Model

| member | source | states |
|---|---|---|
| CapeSafety.AtMostOneSend | internal/cape/store_state.go:22-250 | in every run, with crashes, ambiguous commits, cancels and expiries, two attempts that sent bytes for the same tenant, digest, generation and policies are the same attempt of the same job |
| CapeSafety.PayloadsSurvive | internal/cape/store_ingress.go:424-468 | at every point of every run a queued, submitting or uncertain job has its payload on disk with exactly the recorded length |
| CapeSafety.RatesHold | internal/cape/store_state.go:104-131 | between any two grants of a bucket, however far apart, no more tokens were granted than the rate plus the refill of that span |
| CapeSafety.RefusalsAreExact | internal/cape/store_state.go:104-131 | in every run a bucket refuses a token as throttled exactly when granting it would overrun some window of its grants, and for its clock exactly when it has granted later |
| CapeSafety.SubmissionsAreExact | internal/cape/store_state.go:61-68 | in every run a submission gets its three tokens exactly when none of its three buckets would overrun |
| CapeSafety.BeginsExactly | internal/cape/store_state.go:22-77 | in every run an attempt begins exactly when its job is queued under that version, not paused, not overdue, past its retry time, within the concurrency limits and within the rates of its three buckets |
| CapeSafety.ConcurrencyHolds | internal/cape/store_state.go:51-60 | requests in flight never exceed the global limit, nor a tenant's |
| CapeSafety.QuotasHold | internal/cape/store_ingress.go:229-288 | neither the rows nor the summed reservations, of the store or of any tenant, ever exceed their quotas |
| CapeSafety.RecoveryNeverStuck | internal/cape/store_state.go:267-285 | from any state that satisfies the invariant, once interrupted rows and stray files are gone every startup check succeeds |
| CapeSafety.StepKeepsInv | internal/cape/store_state.go:22-250 | every step of the store, the scheduler, the network and a crash keeps the whole invariant |
| CapeSafety.RunKeepsInv | internal/cape/store_state.go:22-250 | so does every run |
| CapeSafety.EmptyIsFine | internal/cape/store.go:238-338 | an empty store satisfies it |
| CapeHistory.DebtConserved | internal/cape/lifecycle.go:75-92 | between any two points of any run: recorded task IDs are never lost, terminal jobs stay terminal with their first instant, results exist only on unsuppressed completed jobs, versions only grow, and a job that sent bytes or owns tasks is never deleted |
| CapeHistory.StepEvolves | internal/cape/lifecycle.go:292-316 | one step forgets no task, reopens no terminal job and drops only jobs without tasks |
| CapeHistory.RunEvolves | internal/cape/lifecycle.go:292-316 | the same over a whole run |
| CapeResults.ResultsAreCarried | internal/cape/transitions.go:92-118 | in every run a completed job was completed by a report step while it was being fetched, and its result is the one that step carried, unless its retention is over |
| CapeResults.ResultStays | internal/cape/lifecycle.go:79-150 | in every run a completed job keeps its result until it is cancelled or its retention is over |
| CapeResults.ReportIsStored | internal/cape/transitions.go:92-118 | in every reachable state a report for the job as it is, in time, leaves it completed with that result |
| CapeResults.StepResultIs | internal/cape/transitions.go:92-118 | one step completes a job only with the result it carries, and takes a result away only by cancelling or after retention |
| CapeDeletion.DeletedMeansAcknowledged | internal/cape/lifecycle.go:164-221 | in every run a job counts as deleted remotely only when it has tasks, every one is acknowledged and no debt is unknown, and nothing but its own tasks is ever acknowledged |
| CapeProgress.JobIsCarriedThrough | internal/cape/scheduler.go:190-389 | in every reachable state a queued job with nothing in its way can be carried through: its bytes are sent, its one task is recorded and its report is stored, whatever the report maps to |
| CapeProgress.UploadIsQueued | internal/cape/store_ingress.go:50-158 | in every reachable state an upload that the quotas admit, of an allowed size and an identity that is not taken, is queued with its bytes on disk |
| CapeProgress.AdmitsExactly | internal/cape/store_ingress.go:229-317 | an upload is admitted exactly when its generation is not paused, it fits all four quotas, its tenant has no debt older than a week and there is room on the disk; and what its row then is |
| CapeProgress.PublishesUnlessTaken | internal/cape/store_ingress.go:110-158 | a staged upload in time is queued exactly when no row with its identity is queued or may have been sent, and reuses a row otherwise |
| CapeProgress.RecordsExactly | internal/cape/store_state.go:171-192 | an outcome can be recorded exactly once, for the latest attempt, whatever has become of the job |
| CapeProgress.OutcomeIsNeverLost | internal/cape/scheduler.go:366-389 | a pending outcome is dropped only when the outcome of its attempt is durable or there was no attempt, and what is stored is what it says |
| CapeRows.ReusableIsBlocking | internal/cape/store_ingress.go:216-227 | a job is offered for reuse exactly when it is queued or may have been sent; the time limit for completed jobs never matters |
| CapeRows.RecordRow | internal/cape/store_state.go:171-250 | recording an outcome keeps the row invariant and every remote ID, accounts for every returned one, never reopens a terminal job, and frees the barrier only for an attempt that provably sent nothing |
| CapeRows.HarvestAccountsForTasks | internal/cape/store_state.go:193-208 | every returned task ID is either kept or reported as unknown debt |
| CapeRows.TerminateIsQuiet | internal/cape/lifecycle.go:79-92 | ending a job keeps its attempt, debt, payload size and reservation, and never weakens a barrier |
| CapeRows.RowOpIsQuiet | internal/cape/transitions.go:148-180 | no cancel, expiry, deletion response, poll, report, retry or wake decides anything about the submission protocol |
| CapeRows.PollableExactly | internal/cape/store_state.go:193-221 | an outcome makes a job pollable exactly when it is a success with one task known for certain |
| CapeRows.RetryWaits | internal/cape/store_state.go:222-228 | an attempt that provably sent nothing is queued again, five seconds to five minutes later, without a barrier or debt |
| CapeRows.RetryOnlyPostpones | internal/cape/scheduler_store.go:135-165 | a retry hint is honoured in full, never moves a retry time earlier and never moves a deadline |
| CapeRows.BeginRow | internal/cape/store_state.go:70-77 | a queued job that begins is held and its attempt is new |
| CapeRows.PublishRow | internal/cape/store_ingress.go:145-154 | publication turns a staged row into a queued one without debt |
| CapeRows.MakeUncertainRow | internal/cape/store_state.go:321-336 | an interrupted attempt becomes a permanent barrier that keeps its payload |
| CapeJob.Harvested | internal/cape/store_state.go:193-208 | the kept task IDs are valid and distinct |
| CapeTransitions.CompletesExactly | internal/cape/transitions.go:92-118 | a report is taken exactly for the job as it is and in time; it completes the job with its result, and one that does not normalize fails it without a result |
| CapeTransitions.StatusDecides | internal/cape/transitions.go:72-88 | only reported permits fetching, the four failures end the job, the six active statuses leave it as it is, and an unknown one is an error |
| CapeTransitions.ReportErrorDecides | internal/cape/transitions.go:123-131 | a failed fetch only leaves its code |
| CapeTransitions.ReportsExactly | internal/cape/transitions.go:133-180 | a poll or report is refused exactly when it is not about the job's version, state and only task, or comes too late |
| CapeTransitions.ExpiresExactly | internal/cape/lifecycle.go:247-265 | a job expires exactly when its analysis deadline has passed, or its queue deadline while it is queued; and what ending it leaves |
| CapeTransitions.CancelsExactly | internal/cape/lifecycle.go:99-150 | every job but a staged or cancelled one is cancelled, loses its result and keeps what it owes |
| CapeTransitions.DeletionDecides | internal/cape/lifecycle.go:164-221 | a deletion response is taken exactly for an owned task of a terminal job, and the job counts as deleted exactly when every task has been acknowledged and no debt is unknown |
| CapeTransitions.OutcomeDecides | internal/cape/store_state.go:171-236 | several tasks fail a waiting job, one certain task makes it pollable, a failure without a byte sent queues it again, and everything else is uncertain for ever |
| CapeTransitions.LateOutcomeDecides | internal/cape/store_state.go:238-250 | a late outcome leaves the end of a job as it is, and the job owes nothing, one known task or an unknown debt |
| CapeTransitions.RetryWaitsAsTold | internal/cape/store_state.go:222-228 | a retry waits as long as it is told to, within five seconds and five minutes |
| CapeTransitions.HarvestsExactly | internal/cape/store_state.go:193-208 | kept are exactly the IDs of the valid tasks, in the order in which they first occur |
| CapeTransitions.IncompleteExactly | internal/cape/store_state.go:193-208 | a harvest is incomplete exactly when there are too many tasks, an invalid one or a repeated one |
| CapeTransitions.ReadsExactly | internal/cape/scheduler_store.go:81-116 | a read is allowed exactly when it is due, for a polled job in time or a terminal one within two days of its attempt |
| CapeTransitions.ReadIsPaced | internal/cape/scheduler_store.go:117-132 | after a read the next one is due exactly when its delay is over |
| CapeTransitions.RetryExtends | internal/cape/scheduler_store.go:135-165 | a retry hint moves both retry times to the later of what they were and what it asks for |
| CapeTransitions.WakesExactly | internal/cape/callback.go:285-292 | a callback wakes exactly a polled job in time; then a read is due unless the remote side asked to wait |
| CapeTransitions.DebtBecomesOverdue | internal/cape/scheduler_store.go:167-200 | a terminal job with remote debt is marked overdue exactly once, two days after its attempt |
| TokenBucket.TakeAccounts | internal/cape/store_state.go:104-131 | every granted token is paid for: a bucket always holds exactly what its tightest window leaves, and one take keeps that and the bound for every window seen so far |
| TokenBucket.RefusedExactly | internal/cape/store_state.go:104-131 | a token is refused exactly when granting it would break the bound of some window, and the clock is at fault exactly when it is behind the last grant |
| TokenBucket.RefilledIs | internal/cape/store_state.go:113-125 | a bucket refills with the time since its last grant up to its rate; capping that time at a minute changes nothing |
| CapePreservation.BeginKeepsInv | internal/cape/store_state.go:22-85 | beginning an attempt keeps the invariant, however its commit and checkpoint end |
| CapePreservation.PersistKeepsInv | internal/cape/scheduler.go:366-389 | so does reconciling an outcome or a begin error |
| CapePreservation.PublishKeepsInv | internal/cape/store_ingress.go:110-158 | publication keeps the invariant, and with it one blocking row per identity |
| CapePreservation.ReserveKeepsInv | internal/cape/store_ingress.go:229-288 | admission keeps the quotas |
| CapePreservation.ForgetKeepsInv | internal/cape/lifecycle.go:296-302 | retention deletes only rows that owe nothing |
| CapePreservation.SubmissionKeepsBuckets | internal/cape/store_state.go:61-68 | a submission takes one token from each of three buckets, or none |
| CapeRecovery.RecoveredIsAccepted | internal/cape/store_state.go:267-392 | from every state that a crash can leave, recovery ends in a state that startup accepts |
| CapeRecovery.RecoveryIsIdempotent | internal/cape/store_state.go:267-392 | recovering a recovered store changes nothing |
| CapeLive.LiveTracksUnlessLeaked | internal/cape/store.go:163 | a live entry outlives its recorded outcome after a step exactly when that step records the outcome and reports an error |
| CapeLive.LiveTracksInRuns | internal/cape/store.go:163 | in a run without such a step no live entry outlives its outcome at any point, and in a run with one some entry does |
| CapeLive.LeakIsReachable | internal/cape/store_state.go:155-158 | a concrete run with default limits leaks an entry |
| CapeLive.LeakStarvesTenant | internal/cape/store_state.go:51-60 | once as many entries have leaked as the tenant may have attempts, no request of that tenant exists again in any run without a restart |
| CapeMaintenance.ExpiresTheOverdue | internal/cape/lifecycle.go:247-265 | the deadline pass expires exactly the rows of its batch whose analysis deadline has passed, or whose queue deadline has while they are queued |
| CapeMaintenance.CleansExactly | internal/cape/lifecycle.go:275-316 | the cleanup pass deletes exactly the rows whose retention is over and that owe nothing, and strips exactly the others whose retention is over |
| CapeMaintenance.RetentionDecides | internal/cape/lifecycle.go:275-316 | a day after its end a job is gone exactly when nothing remote can be owed for it, and otherwise loses its result and its verdict and keeps its barrier |
| CapeMaintenance.CleanPassRuns | internal/cape/lifecycle.go:271-323 | the cleanup pass is a run of protocol steps in which every unlink precedes its row's deletion |
| CapeMaintenance.DeadlinePassReplays | internal/cape/lifecycle.go:236-270 | so is the deadline pass |
| CapeStore.AppendSubmissionTasks | internal/cape/store_state.go:193-208 | the loop keeps the first occurrence of each valid task ID, in order, and tells whether any was rejected |
| CapeStore.HarvestTasks | internal/cape/store_state.go:180-186 | the row with its outcome marked and its tasks appended |
| CapeStore.CountLive | internal/cape/store_state.go:51-57 | counts all live attempts and the tenant's own |
| CapeStore.SumReserved | internal/cape/store_ingress.go:251-257 | the reservation total that the database query returns, over all rows or a tenant's |
| CapeStore.FindOldDebt | internal/cape/store_ingress.go:290-317 | finds remote debt older than a week if and only if there is some |
| CapeStore.FindReusable | internal/cape/store_ingress.go:119-141 | finds a reusable row with the identity if and only if there is one |
| CapeStore.Store.EndTransaction | internal/cape/store.go:417-430 | the new state is applied unless the commit was not; only a clean commit reports success |
| CapeStore.Store.TakeTokens | internal/cape/store_state.go:61-68 | all three tokens or an error and none |
| CapeStore.Store.BeginTransaction | internal/cape/store_state.go:29-78 | the begin transaction with all its refusals |
| CapeStore.Store.BeginSubmission | internal/cape/store_state.go:22-85 | success means that the attempt is durable and live; every other ending leaves exactly what its commit applied |
| CapeStore.Store.ApplySubmissionOutcome | internal/cape/store_state.go:210-250 | the five ways an outcome is applied; only a retry reads the clock |
| CapeStore.Store.RecordTransaction | internal/cape/store_state.go:171-191 | the record transaction with its version guard |
| CapeStore.Store.RecordOutcome | internal/cape/store_state.go:140-169 | an attempt stops being live only on a clean commit, and its payload is unlinked only after that |
| CapeStore.Store.RemovePayload | internal/cape/lifecycle.go:152-158 | removes the payload or reports failure and leaves it |
| CapeStore.Store.CancelJob | internal/cape/lifecycle.go:99-150 | cancellation is durable before the payload goes, and works at the high-water mark when the clock has gone back |
| CapeStore.Store.Acknowledge | internal/cape/lifecycle.go:183-203 | whether a remote ID is the row's, and the acknowledged IDs without repetition |
| CapeStore.Store.RecordDeletionResponse | internal/cape/lifecycle.go:164-221 | records a deletion response for an owned remote ID of a terminal job and nothing else; success also needs the checkpoint |
| CapeStore.Store.TransitionReport | internal/cape/transitions.go:72-184 | status, report and report error change a job only under the version, state, ownership and deadline guard; success also needs the checkpoint |
| CapeStore.Store.ReserveTransaction | internal/cape/store_ingress.go:239-286 | the admission transaction with all its refusals |
| CapeStore.Store.Reserve | internal/cape/store_ingress.go:229-288 | admits an upload, by how its commit ends |
| CapeStore.Store.SetGenerationAdmission | internal/cape/scheduler_store.go:23-44 | pauses or resumes one generation and nothing else |
| CapeStore.Store.PublishUpload | internal/cape/store_ingress.go:110-158 | one transaction that publishes, finds a row with the same identity that stands for the upload, or refuses |
| CapeStore.Store.FinishUpload | internal/cape/store_ingress.go:110-176 | an upload is published, or removed again when that fails or a row is reused; it fails only on a refused transaction or on trouble |
| CapeStore.Store.ExpireBatch | internal/cape/lifecycle.go:247-265 | the deadline pass over one batch |
| CapeStore.Store.CleanBatch | internal/cape/lifecycle.go:275-318 | unlinks take effect at once, row changes wait for the commit, and a failed unlink stops the pass |
| CapeStore.Store.Maintain | internal/cape/lifecycle.go:228-324 | a pass without trouble expires the overdue rows and retires the finished ones, it fails only on trouble, and whatever its commits and unlinks do it is a run of protocol steps |
| CapeStore.Store.CleanupStaging | internal/cape/store_ingress.go:438-468 | at startup or behind a stopped writer, files go before the row, at every point of failure and however the commit ends |
| CapeStore.Store.ReconcileJobs | internal/cape/store_state.go:312-344 | after it no row is staged or submitting; whatever its commits and unlinks do, what recovery will end in has not changed |
| CapeStore.Store.ReconcileSpool | internal/cape/store_state.go:346-392 | after it only payloads of queued and uncertain jobs are left, each of the recorded length |
| CapeStore.Store.Recover | internal/cape/store_state.go:265-285 | startup fails only when a filesystem call fails or a commit does not report success, even if it was applied; then a rerun still ends in the same state; on success that state is reached and every check has passed |
| CapeScheduler.Scheduler.DispatchSubmit | internal/cape/scheduler.go:249-275 | a request exists only behind a begin that reported success; every other ending leaves a packet; both are the protocol's step |
| CapeScheduler.Scheduler.PersistPacket | internal/cape/scheduler.go:366-389 | an outcome refused as unauthorized is forgotten only once its generation is paused; every ending is a run of protocol steps |
| CapeScheduler.Scheduler.PersistOutcome | internal/cape/scheduler.go:372-389 | an outcome is forgotten only when it is durable, and a begin error is reconciled only against a newer attempt |
| CapeScheduler.Scheduler.PersistPending | internal/cape/scheduler.go:341-364 | one pass comes to exactly what trying the outcomes one after the other comes to; it drops an outcome only once it is durable and keeps the others in order |
| CapeScheduler.ForgottenExactly | internal/cape/scheduler.go:366-389 | an outcome is forgotten exactly when it is durable or not needed already, or is recorded by a clean commit with its payload gone where the attempt is over and the checkpoint done |
| CapeScheduler.PassKeeps | internal/cape/scheduler.go:341-364 | a pass drops an outcome only once that is durable, and keeps the others in order |
| CapeScheduler.RecordReplays | internal/cape/store_state.go:140-169 | recording an outcome is a persist step, followed by an unlink when the attempt is over |
| CapeCallback.EventStore.Receive | internal/cape/callback.go:229-350 | authenticates a callback, remembers its event and wakes the poll of its job, or reports why not and changes nothing |
| CapeAcceptance.AcceptsExactly | internal/cape/callback.go:257-350 | a callback is accepted exactly when it speaks for a tenant and a generation of its valid key, is signed within five minutes, names the one task of a job of that tenant, is not remembered and fits the quotas; and what acceptance changes |
| CapeAcceptance.EveryAcceptanceIsEntitled | internal/cape/callback.go:257-321 | every acceptance in every run is for a tenant and a generation of its key, within the key's validity, and named the one task of a job of that tenant at the time |
| CapeAcceptance.AcceptancesAreBounded | internal/cape/callback.go:323-350 | in every run the event table stays within its quotas, in all and of any tenant, and no key has more than ten callbacks accepted in any minute |
| CapeCallback.NeverAcceptedTwice | internal/cape/callback.go:261-307 | no event ID and timestamp is accepted twice in any run, if the two readings inside a delivery are close |
| CapeCallback.ReplaySafeExactly | internal/cape/callback.go:323-350 | that holds for all runs exactly when the allowed skew plus the tolerance is below a minute |
| CapeCallback.AcceptedTwice | internal/cape/store.go:477-495 | with more skew there is a run of authentic callbacks, with all clock readings after the epoch, that accepts one of them twice |
| BiffCorrect.FoldIsRender | internal/extract/biff_ptg.go:352-556 | for every formula tree within the caps, in all four dialects and for every recognised spelling, folding the encoding yields the tree's text |
| BiffReadable.CallReadsBack | internal/extract/biff_ptg.go:436-457 | every call but CHAR of a printable literal folds to its name, or its number, and a list of its arguments' texts in source order: each stands in its place behind a comma, and splitting at commas gives them back when they hold none |
| BiffReadable.JoinedArgsSplit | internal/extract/biff_ptg.go:457 | arguments without commas, joined and split at commas, are the same arguments, first to last |
| BiffReadable.RefReadsBack | internal/extract/biff_ptg.go:324-332 | a rendered reference names its cell, letters and digits read back to its column and row; one outside the sheet leaves nothing |
| BiffReadable.OperandInPlace | internal/extract/biff_ptg.go:370-556 | operands that are left are joined from the bottom of the stack to its top, each in its place |
| BiffCorrect.FoldsTree | internal/extract/biff_ptg.go:352-556 | the same in the middle of a stream and on top of any stack |
| BiffCorrect.FoldExactly | internal/extract/biff_ptg.go:352-556 | the folded text of every formula tree within the caps, whatever its class variants; it is the right text exactly when all are known or the operands before the first unknown one are that text |
| BiffCorrect.LongCallFolds | internal/extract/biff_ptg.go:438-456 | what a call of 65 to 255 arguments leaves on the stack |
| BiffCorrect.ReadToTheEnd | internal/extract/biff_ptg.go:593-613 | the folder reads a formula to its end exactly when it knows every class variant in it |
| BiffCorrect.StopsInTree | internal/extract/biff_ptg.go:370-556 | a tree with an unknown class variant, in the middle of a stream and on top of any stack, leaves exactly its residue |
| BiffCorrect.UnknownSpellings | internal/extract/biff_ptg.go:593-613 | the exact list of class variants that are not recognised, each of which ends the fold |
| BiffCorrect.UnknownSpellingHidesCall | internal/extract/biff_ptg.go:593-613 | in every dialect a formula whose call is lost |
| BiffCorrect.HiddenStringIsRestored | internal/extract/biff_ptg.go:3-23 | every printable string spelled as concatenated CHAR calls is read back exactly |
| BiffPtg.FoldIgnoresSkipCheck | internal/extract/biff_ptg.go:183-195 | whether a skipped reference is checked for truncation changes the folded text of no byte string |
| BiffPtg.SkipCheckIsUnobservable | internal/extract/biff_ptg.go:183-195 | the same from any stack and token count |
| BiffPtg.TokensAdvance | internal/extract/biff_ptg.go:370-556 | every token consumes at least its opcode, so the fold ends |
| BiffFormula.LeafTurn | internal/extract/biff_ptg.go:389-423 | a literal or reference token pushes what the node stands for |
| BiffFormula.OperatorTurnIs | internal/extract/biff_ptg.go:382-458 | an operator or function token replaces its operands by what the node stands for |
| BiffText.CharOfNumeral | internal/extract/biff_ptg.go:631-640 | a decimal literal folds to its character exactly when its code is printable |
| BiffFold.PopArgs | internal/extract/biff_ptg.go:558-569 | pops a call's operands and restores their source order |
| BiffFold.JoinStack | internal/extract/biff_ptg.go:655-671 | joins what is left on the stack |
| BiffFold.FoldOperand | internal/extract/biff_ptg.go:389-539 | literals and references, with their truncation checks |
| BiffFold.FoldOperator | internal/extract/biff_ptg.go:382-551 | operators, calls and control attributes |
| BiffFold.FoldStream | internal/extract/biff_ptg.go:352-556 | the loop computes the machine's result for every byte string |
| DecodeWalk.StreamsGrowWithDepth | internal/extract/decode.go:816-948 | for fixed sources and iteration cap, the streams at a depth are a prefix of the streams at any greater depth |
| WalkComplete.FoundExactly | internal/extract/decode.go:826-948 | when the budgets suffice, the new streams are exactly the blobs that lie at most the depth of layers under a source: decoded from it, or from a decoded blob that passes the three tests |
| WalkComplete.NothingIsMissed | internal/extract/decode.go:826-948 | for one source whose budgets suffice, every blob under it is found, whatever the other sources cost |
| WalkComplete.NothingElseIsFound | internal/extract/decode.go:826-948 | whatever the budgets, every new stream lies under a source, within the depth |
| WalkComplete.ChildrenExactly | internal/extract/decode.go:940-946 | the queued children are exactly the emitted blobs that look encoded, in order of emission |
| WalkComplete.EmitsInOrder | internal/extract/decode.go:897-938 | the decoder chain emits what is new in the order in which it is found, up to the first new blob for which a budget has no room, and then stops |
| WalkComplete.NotedLayerIsDeepest | internal/extract/decode.go:923-926 | the layer noted for a source is the deepest one from which something was decoded |
| DecodeWalk.BudgetsHold | internal/extract/decode.go:826-948 | no source exceeds its blobs, bytes or iterations, its blobs are distinct, and the result never overflows |
| DecodeWalk.TurnKeeps | internal/extract/decode.go:864-948 | one item keeps the budgets, only appends streams and brings the walk nearer to its end |
| DecodeWalk.EmitAllGrows | internal/extract/decode.go:897-927 | every emitted blob is new to its source, within size limits and paid for |
| DecodeMarkers.MarkerKeptExactly | internal/extract/decode.go:949-962 | a source that is marked at one depth is marked at a greater one exactly when there is still room at its turn |
| DecodeMarkers.RoomExactly | internal/extract/decode.go:953-956 | how many streams there are at a source's turn, when the byte budget refuses no marker |
| DecodeMarkers.MarkerIsLost | internal/extract/decode.go:816-821 | stacked layers that are marked at depth three, not at depth two, and not at depth four |
| WalkComplete.MarkedMeansDeep | internal/extract/decode.go:949-962 | a marked source has decoded something from the third layer or deeper, and one that has, where nothing shallower gives the same blob, is marked if there is room |
| WalkGate.ChildGateIsIdle | internal/extract/decode.go:881-891 | removing the gate before the children changes no stream, for any sources and options |
| WalkGate.IdleSourceIsFree | internal/extract/decode.go:802-814 | leaving out a source that gives the decoders nothing changes no stream |
| WalkGate.GatesAreFree | internal/extract/decode.go:802-948 | both gates together change no stream, unless a source that they turn away has a run that its decoder takes and that reaches behind the window |
| DecodeRun.WalkSources | internal/extract/decode.go:826-962 | the queue loop over the states of the sources computes that walk, and the loop behind it the markers |
| DecodeRun.MarkDeepTrees | internal/extract/decode.go:949-962 | one marker a source that reached the deep layer, in order, while there is room |
| DecodeRun.ProcessItem | internal/extract/decode.go:868-947 | one item: gates, decoders, children |
| DecodeRun.EmitFound | internal/extract/decode.go:897-938 | the first blob that a budget turns away stops the decoder chain; duplicates are found by the hashed set |
| DecodeRun.SourceState.Emit | internal/extract/decode.go:897-927 | one blob: its length, the duplicate filter, the budgets |
| DecodeRun.BlobSet.Has | internal/extract/decode.go:1138-1153 | membership by contents, whatever collides |
| DecodeRun.BlobSet.Add | internal/extract/decode.go:1155-1165 | adds one blob and loses none |
| DecimalRun.NextDecSeqRun | internal/extract/decode.go:1780-1819 | the scanner returns exactly the leftmost match that the regular expression prefers, or none if there is none or the clock ran out at a checkpoint |
| DecimalRun.MatchIsLanguage | internal/extract/decode.go:226 | the preferred match exists exactly where the pattern's language has a match |
| DecimalLanguage.ReadsIsPattern | internal/extract/decode.go:226 | what the scanner's reference reads is, word for word, the language of the pattern that the gate is proved against |
| DecimalLanguage.ScannerSeesWhatTheGateSees | internal/extract/decode.go:1780-1819 | a preferred match exists in a buffer exactly when that pattern matches it |
| EncodedRuns.NextDecodeRun | internal/extract/decode.go:1422-1481 | the base64 and hex scanner returns the leftmost longest match of its regular expression, or none if there is none or the clock ran out at a checkpoint; and whether it is all hex |
| EncodedRuns.NextScalarRun | internal/extract/decode.go:1732-1778 | the same for NETBIOS and base32, and whether the capped run has a digit that only base32 has |
| DecodeChain.FindRuns | internal/extract/decode.go:1485-1508 | the loop of a decoder takes exactly the runs that its finder finds one behind the other, but for those that it leaves to another decoder; scanners find the leftmost longest match, or the one that the expression prefers |
| DecodeChain.FinderLocates | internal/extract/decode.go:1436-1481 | every finder tells exactly whether and where a leftmost match is |
| DecodeChain.FoldStrings | internal/extract/decode.go:248-407 | a folding takes nothing unless its literal is in the clamped buffer, and then exactly what the engine finds, 64 matches at most, but for plain hex literals |
| DecodeChain.EmitReversed | internal/extract/decode.go:2054-2076 | the reversed buffer, exactly when a reversed marker is in it and it is not too long |
| WholeRuns.PiecesAreWholeRuns | internal/extract/decode.go:1485-1508 | searching for the leftmost longest match again and again cuts out exactly the maximal runs that are long enough, with their padding |
| WholeRuns.TakesExactly | internal/extract/decode.go:1496-1498 | a decoder takes something exactly when there is a whole base64 run that is not plain hex, a whole base32 run with a distinctive digit, or a match of another pattern |
| FoldLiterals.FoldNeedsLiteral | internal/extract/decode.go:260-390 | where a folding but StrReverse matches, its literal is there; the variable Replace also needs a variable |
| FoldLiterals.StrReverseSpelling | internal/extract/decode.go:343-346 | a match of StrReverse is spelled like its literal exactly when neither of its letters s is a long s |
| GateStrict.DecodeAll | internal/extract/decode.go:929-938 | exactly what the ten decoders take from a buffer; nothing at all when the gate turns away a buffer within its window |
| GateStrict.TurnedAwayIsIdle | internal/extract/decode.go:1193-1212 | no decoder has anything to convert in a buffer within the window that the gate turns away |
| GateStrict.MissedExactly | internal/extract/decode.go:1214-1221 | for every buffer that the gate turns away, a decoder has something to convert exactly when a run that it takes reaches behind the window |
| GateStrict.MatchBehindIsNotEnough | internal/extract/decode.go:1496-1498 | a buffer with a base64 match behind the window from which no decoder takes anything |
| GateStrict.StrictExactly | internal/extract/decode.go:1193-1221 | the gate passes all buffers of a length that a decoder would take something from exactly when that length is within the window |
| GateStrict.LooksEncoded | internal/extract/decode.go:1283-1322 | the re-decode test is the gate and the thirteen patterns or a reversed marker, in the window |
| GateStrict.GateHidesExactly | internal/extract/decode.go:1287-1294 | when the gate is closed, the ungated test would succeed exactly when the case-insensitive StrReverse pattern matches |
| GateStrict.AsciiHidesNothing | internal/extract/decode.go:1287-1294 | in an ASCII window the gate hides nothing from the test |
| GateStrict.LongSIsHidden | internal/extract/decode.go:1287-1294 | a StrReverse call with a long s is hidden |
| GateStrict.LongSIsSkipped | internal/extract/decode.go:343-346 | a StrReverse call with a long s matches its pattern and has not its literal |
| EncodingGate.GateIsStrict | internal/extract/decode.go:1185-1276 | a buffer within the window that the gate turns away matches none of the fourteen other patterns and has no reversed marker |
| EncodingGate.MayBeEncodedScan | internal/extract/decode.go:1214-1276 | the one-pass scan with its counters and flags decides exactly the gate's condition |
| EncodingGate.ScanRuns | internal/extract/decode.go:1222-1260 | two run counters and two flags find long runs and joined literals |
| EncodingGate.AsciiContainsFold | internal/extract/html.go:67-102 | finds a marker in any case if and only if it is there |
| BiffCipher.Rc4IsAnInvolution | internal/extract/defaultpw.go:372-427 | RC4 decryption keeps the framing and, applied twice, returns the complete records |
| BiffCipher.FramingKept | internal/extract/defaultpw.go:406-427 | bytes that agree on the clear positions have the same records and the same clear positions |
| BiffCipher.XorIsInverted | internal/extract/defaultpw.go:223-273 | XOR decryption and the rotate-left encoder invert each other, up to the bytes that both drop |
| BiffCipher.RotationsCancel | internal/extract/defaultpw.go:74-83 | the two rotations undo each other |
| BiffCipher.Ror5Is | internal/extract/defaultpw.go:74-83 | the decryptor rotates right by five: the low five bits move up and the high three come down |
| BiffDecrypt.Rc4DecryptBiff | internal/extract/defaultpw.go:372-427 | the chunked walk equals the per-offset definition: clear bytes kept, every other byte with the keystream byte of its block and offset |
| BiffDecrypt.Rc4Decryptor.Crypt | internal/extract/defaultpw.go:381-405 | clear bytes use up keystream and the stream is renewed at every block |
| BiffDecrypt.DecryptXorMethod1 | internal/extract/defaultpw.go:223-273 | the record walk equals the per-offset definition, with its cap and its truncated tail |
| WorkerPool.DecodersAreBounded | internal/extract/archiveworker.go:190-241 | in every interleaving, decoders that still run never exceed the slots |
| WorkerPool.SlotsAreFreedOnce | internal/extract/archiveworker.go:215-240 | a slot is freed at most once and only after its decoder has ended |
| WorkerPool.SendNeverBlocks | internal/extract/archiveworker.go:213-240 | a worker whose decoder ends finds room in its channel |
| WorkerPool.QuietPoolIsEmpty | internal/extract/archiveworker.go:199-268 | when all callers have returned and all workers are gone, slots, live count and abandoned gauge are zero |
| WorkerPool.OutcomesAreExclusive | internal/extract/archiveworker.go:242-268 | a call reports a stall exactly when it has no result |
| WorkerPool.GaugeIsExact | internal/extract/archiveworker.go:213-268 | in every run the abandoned gauge is the number of calls given up whose decoder is still at work, less those whose decoder is back before they were counted; so that is exactly when it is negative |
| WorkerPool.GaugeDips | internal/extract/archiveworker.go:258-266 | a run in which it is negative |
| WorkerPool.GaugeDipsOnlyInBetween | internal/extract/archiveworker.go:258-266 | with no watchdog between swap and increment the gauge is between zero and the limit |
| WorkerPool.StepKeepsInv | internal/extract/archiveworker.go:179-268 | every step keeps the counters equal to the sums over the calls |
| PoolProgress.AcquiresExactly | internal/extract/archiveworker.go:179-212 | in every run a call starts exactly when fewer workers than the limit are around, and is refused without any other effect otherwise |
| PoolProgress.ReadyResultIsTaken | internal/extract/archiveworker.go:242-257 | a result that is sent before the caller looks is never reported as a stall, even when the timer has fired |
| PoolProgress.EveryCallEnds | internal/extract/archiveworker.go:213-268 | every run can be continued, without another call, to where every caller has returned, every worker is gone and the pool is empty |
| PoolProgress.StepsAdvance | internal/extract/archiveworker.go:213-268 | every step that does anything brings its call nearer to its end |
| ArchiveBudget.Budget.TryCandidates | internal/extract/archivepw.go:184-215 | returns the first candidate that works if and only if it is reached: all before it miss, no deadline has passed and the budget suffices; no decoder is started after a stall, none beyond 256, and none beyond 16 for costly formats |
| ArchiveBudget.Budget.RunAttempt | internal/extract/archivepw.go:96-123 | counts an attempt and latches a stall |
| RarWalk.EveryMemberOnce | internal/extract/archive.go:1225-1386 | over both walks every plaintext member is read exactly once and every encrypted member once if the password was found and never otherwise |
| RarWalk.WalkMembers | internal/extract/archive.go:1232-1386 | the two walks make exactly those reads, each aimed at the header just seen; the password is found exactly when trying the candidates at some encrypted member, or where readable headers end too early, finds it, and the first such place counts |
| RarWalk.WalkCracked | internal/extract/archive.go:1237-1385 | the walk with the password skips only plaintext members that were handled before |
| RarWalk.Seek | internal/extract/archive.go:1184-1208 | a fresh reader finds the member with the ordinal if and only if it can see one |
| RarWalk.ReadFresh | internal/extract/archive.go:1184-1208 | re-seeking by ordinal reads the member whose header was just seen |
| MilterDrain.DrainIsExact | cmd/strix-milter/main.go:777-854 | the idle channel is closed at most once, exactly when stopping with every accepted session closed; slots never exceed the cap |
| MilterDrain.OpenIsExact | cmd/strix-milter/main.go:777-829 | the counter of open sessions is the number of connections that were accepted and have not closed |
| MilterDrain.NoSessionAfterStop | cmd/strix-milter/main.go:786-820 | once stopping, no connection becomes a session and idle stays idle, in every continuation of the run |
| MilterDrain.StepKeepsInv | cmd/strix-milter/main.go:692-854 | every accept, failure, repeated close and shutdown keeps the counts |
| MilterProgress.SlotsAreTakenExactly | cmd/strix-milter/main.go:692-776 | in every run an accept gets a slot exactly when fewer connections than the cap hold one |
| MilterProgress.SessionsExactly | cmd/strix-milter/main.go:777-820 | an accepted connection becomes a session exactly when the listener is not stopping |
| MilterProgress.ClosingIsIdempotent | cmd/strix-milter/main.go:692-854 | a closed connection has given back its slot and is counted no more, and closing it again changes nothing |
| MilterProgress.DrainCanEnd | cmd/strix-milter/main.go:821-854 | a stopping listener becomes idle once its sessions have closed, from every state |
| RuleClosure.Closure | docker/build-marker-artifact.py:90-141 | returns the least set that contains the markers and is closed under references and namespace globals, with visits equal to its size, its references, its namespaces and their globals |
| RuleClosure.ExpandedIsClosed | docker/build-marker-artifact.py:107-141 | a worklist expanded to its end is closed |
| RuleClosure.IndexEdges | docker/build-marker-artifact.py:100-104 | every reference is kept, in order, under its source |
| RuleClosure.IndexRules | docker/build-marker-artifact.py:90-99 | the globals of every namespace and the markers |
| RuleProjection.ProjectionKeepsMeaning | docker/build-marker-artifact.py:182-198 | if binding accepts, every kept rule is reported by the narrow graph exactly when the main graph reports it, for any conditions |
| RuleBinding.BindExactly | docker/build-marker-artifact.py:182-198 | a narrow bundle is bound exactly when its rules are the main rules of the selected namespaces, in order and renumbered, and its references are those from these rules, in order, with both ends renumbered |
| RuleBinding.NarrowKeepsExactly | docker/build-marker-artifact.py:144-198 | a bound bundle keeps exactly the rules of accepted namespaces that the closure reaches, or of all accepted ones when there is no marker |
| RuleBinding.WithoutMarkersAllIsKept | docker/build-marker-artifact.py:149-153 | without markers an accepted bundle is bound to the whole of itself and to nothing else |
| RuleProjection.MarkerBundleIsFaithful | docker/build-marker-artifact.py:144-198 | closure, selection and binding together keep every marker and what it depends on, with the same truth values |
| RuleProjection.RemappingIsTotal | docker/build-marker-artifact.py:194-197 | the reference remapping of an accepted graph is total |
| RuleProjection.TargetsCarryOver | docker/build-marker-artifact.py:194-198 | a kept rule refers to the images of its targets, in order |
| RuleFrames.EventsOfLog | docker/capture-compiler-inputs.py:85-98 | parsing the written frames gives them back |
| RuleFrames.LogOfEvents | docker/capture-compiler-inputs.py:85-98 | parsed frames written again are the data: parsing loses nothing |
| RuleTrace.AcceptedTraceIsSound | docker/capture-compiler-inputs.py:312-340 | the graph of a trace accepted with exit status 0 is exactly what its frames say: one completion a rule, in order, every reference, rule and tag, and one seal with the numbers of frames of each kind; indices are dense, identities and tags distinct, references within namespaces, and every root was read to its end without errors |
| RuleTrace.CertifiedIsAccepted | docker/capture-compiler-inputs.py:189-218 | a certified graph is dense, has distinct identities and refers only within namespaces |
| RuleTrace.ObserveKeepsSound | docker/capture-compiler-inputs.py:123-187 | every accepted frame keeps the inventory sound |
| RuleTrace.ConsumeReflects | docker/capture-compiler-inputs.py:312-340 | at every point of an accepted trace what was collected is exactly what the frames so far say |
| RuleRoundTrip.ParseOfProduced | docker/patch-compiler-input-capture.py:36-132 | parsing the bytes written for any compilation, with reads, opcodes and includes in any order, gives back its versions, sources, includes and rule graph |
| RuleRoundTrip.ConsumeInventory | docker/capture-compiler-inputs.py:154-181 | the inventory and tag frames give back the rules |
| RuleRoundTrip.ConsumeRoot | docker/capture-compiler-inputs.py:240-290 | the frames of one source, with its events in any order, give back its contents, includes and opcodes |
| RuleRoundTrip.ConsumeEvents | docker/capture-compiler-inputs.py:249-290 | reads, opcodes and includes in any order |
| RuleCapture.PutLittle | docker/compiler-input-capture.h:82-85 | fixed little-endian bytes, one shift at a time |
| RuleCapture.Producer.InputCapture | docker/compiler-input-capture.h:46-71 | appends exactly one frame to the log, or nothing when no log is asked for |
| RuleCapture.Producer.RuleBegin | docker/compiler-input-capture.h:77-81 | begins a graph and its counts |
| RuleCapture.Producer.RuleCapture | docker/compiler-input-capture.h:86-98 | writes and counts one opcode, or nothing before the graph begins |
| RuleCapture.Producer.RuleInventory | docker/compiler-input-capture.h:99-118 | writes one rule |
| RuleCapture.Producer.RuleTag | docker/compiler-input-capture.h:119-124 | writes and counts one tag |
| RuleCapture.Producer.RuleSummary | docker/compiler-input-capture.h:125-132 | seals the graph with the numbers of frames of each kind |
| RuleCompile.Compile | docker/patch-compiler-input-capture.py:69-128 | a compilation that calls the writer at its observation points leaves exactly the frames of that compilation in the log, and the reader gets the compilation back from them |
| RuleCompile.CompileRoot | docker/patch-compiler-input-capture.py:69-78 | one source file: version, begin, events and end, with its opcodes counted |
| RuleCompile.ListRules | docker/patch-compiler-input-capture.py:109-127 | every rule and its tags, in order, with the tags counted |
| RuleCapture.Collector.Take | docker/capture-compiler-inputs.py:123-187 | one graph frame; a rejected frame changes nothing |
| RuleCapture.Collector.TakeRule | docker/capture-compiler-inputs.py:154-172 | the identity set mirrors the inventory |
| RuleCapture.Collector.TakeTag | docker/capture-compiler-inputs.py:174-181 | a tag goes to the rule just seen, once |
| RuleCapture.ReadFrame | docker/capture-compiler-inputs.py:85-98 | the frame at an offset, or a truncation |
| RuleCapture.ParseTrace | docker/capture-compiler-inputs.py:312-340 | the loop computes the parse for every byte string and exit status |

## Left out

- SQLite, JSON encoding and the filesystem: a transaction is a step on maps; an encoding that fails its size limit is a commit that was not applied.
- The CAPE client, its TLS, multipart and credential code, the HTTP API and the report mapper: their answers are parameters.
- Physical disk capacity arithmetic in admission: the filesystem's answer is a parameter.
- Batch cursors of maintenance and scheduling, and the scheduler's choice between tenants: every batch and every order is covered.
- Concurrent stores on one directory: the store holds an owner lock, and one scheduler runs per store.
- 64-bit overflow of times, versions and counters.
- CapeSafety.RatesHold: counts in reals, so it does not cover floating-point rounding in the persisted token count.
- CapeSafety.RefusalsAreExact: in reals too, so a token that is due to the last digit may be refused by rounding.
- BiffText.CharOfNumeral: the argument of `CHAR` is trimmed of ASCII white space only, not of Unicode spaces.
- BiffCipher.Rc4IsAnInvolution: the key schedule and the password check are not modelled; the keystream is any function of block and offset.
- RarWalk.EveryMemberOnce: walks that caps, deadlines, stalls or solid members cut short are not covered.
- RuleTrace.AcceptedTraceIsSound: covers traces with a rule graph; traces of the older schema carry none.
- RuleProjection.ProjectionKeepsMeaning: checks of sources, includes, versions and native descriptors are separate equalities and not modelled.
- DecodeWalk.StreamsGrowWithDepth: covers the global walk without a deadline; the defanged side path before it is not part of this model.
- What the ten decoders make of the runs they take (base64, hex, escapes, VBA folding): the searches and their gates are modelled; the conversions, and what they reject, are parameters of the walk.
- GateStrict.DecodeAll: deadlines, which only cut the lists short, are modelled in the scanners and not in the loops around them.
- Carvers for other containers, rule signing, packaging and the command line: they would add easier members of the same kinds.
